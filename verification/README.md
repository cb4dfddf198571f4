# Municipal CMS core: a verified Dafny model

This project models the logic inside the front end of a municipal news and civic
information portal. It is a React and TypeScript application that keeps its data in the
browser's local storage. The logic covered is:

- **Section editor.** An article body is an ordered list of typed blocks: headings,
  paragraphs, quotes, lists, images and dividers. The editor appends, merges, removes and
  reorders blocks, and edits list items.
- **String helpers.** The slug generator, the reading-time estimate and the text shortener.
- **Keyed collection store.** Lists of records with an `id`, kept under a key.
- **Article form.** Field edits with the automatic slug, the tag list, validation, the
  form's own reading-time count, and the article record a submission builds.
- **Dashboard article table.** Seeding, save and delete, search with a status filter, the
  counts per status, and the status labels.
- **Article renderer.** Maps each block to the element, class and text it draws.
- **Promise tracker.** Its category list, category filter and counts per status.

Modules, one per file:

| file | module | models |
|---|---|---|
| `wrappers.dfy` | `Wrappers` | `Option` and the `a ?? b` override used by object spread |
| `seqs.dfy` | `Seqs` | `filter`, `findIndex`, `find`, and the subsequence relation |
| `text.dfy` | `Text` | JavaScript white space, `trim`, `toLowerCase`, `replace(/x+/g, c)`, `split`, `join`, `includes` |
| `utils.dfy` | `Utils` | `src/lib/utils.ts` |
| `types.dfy` | `Types` | the block, article and user records, and the merge `{ ...a, ...b }` |
| `editor.dfy` | `RichTextEditor` | `src/components/cms/RichTextEditor.tsx`, with the `SectionEditor` class |
| `storage.dfy` | `Storage` | `src/utils/localStorage.ts`, with the `Store` class |
| `articleform.dfy` | `ArticleForm` | `src/components/cms/ArticleForm.tsx` |
| `dashboard.dfy` | `CMSDashboard` | `src/components/cms/CMSDashboard.tsx`, with the `Dashboard` class |
| `renderer.dfy` | `ArticleRenderer` | `src/components/ArticleRenderer.tsx` |
| `promises.dfy` | `PromiseTracker` | `src/components/PromiseTracker.tsx` |

Pure code is modelled as functions. Code that changes state is modelled as methods whose
postconditions tie the new state to those functions. That code is the editor's
`sections` list, the store's map, the form's validation and word count, and the
dashboard's table. The clock (`now`) and fresh ids (`Date.now().toString()`) are
parameters. Deleting an article is modelled as already confirmed.

The block's `type` field is called `kind`, because `type` is a Dafny keyword. The
variant `Other(name)` stands for any other type string read back from storage.

## Model

| member | source | states |
|---|---|---|
| `Seqs.Filter` | src/components/cms/RichTextEditor.tsx:55 | Every element of the result satisfies the test, and the result is never longer than the input. |
| `Seqs.FilterMultiset` | src/components/cms/RichTextEditor.tsx:55 | Each element that passes the test is kept exactly as often as it occurs in the input; every other element is dropped. |
| `Seqs.FilterMembers` | src/components/cms/CMSDashboard.tsx:81-86 | An element is in the result exactly when it is in the input and satisfies the test. |
| `Seqs.FilterIsSubsequence` | src/components/cms/RichTextEditor.tsx:55 | Filtering keeps the original relative order. |
| `Seqs.FilterAll` | src/utils/localStorage.ts:37 | When every element satisfies the test, the result equals the input. |
| `Seqs.FilterAppend` | src/utils/localStorage.ts:37 | Filtering a concatenation is concatenating the filtered parts. |
| `Seqs.FilterDistinct` | src/components/cms/ArticleForm.tsx:102 | Filtering a list without repetitions gives a list without repetitions. |
| `Seqs.DistinctAppend` | src/components/cms/ArticleForm.tsx:92-95 | Appending an element not yet present keeps a list free of repetitions. |
| `Seqs.FirstIndex` | src/components/cms/RichTextEditor.tsx:59 | Returns -1 exactly when no element matches; otherwise the position of a match with no match before it. |
| `Seqs.Find` | src/components/cms/RichTextEditor.tsx:78 | Returns nothing exactly when no element matches; otherwise the element at the first matching position. |
| `Seqs.Count` | src/components/cms/CMSDashboard.tsx:108 | A count of matches is at most the length. |
| `Seqs.CountExtremes` | src/components/cms/CMSDashboard.tsx:108-110 | A count is 0 exactly when no element matches, and equals the length exactly when every element matches. |
| `Text.IsWhitespace` | src/lib/utils.ts:42 | The ECMAScript white-space and line-terminator characters: the set `trim()` removes and `\s` matches. The trimming and splitting lemmas are stated over it. |
| `Text.LowerChar` | src/lib/utils.ts:13 | An ASCII capital becomes the lower-case letter at the same alphabet position. The result is never an upper-case letter, and every other character is unchanged. Letters, digits and `_` stay in that class. |
| `Text.ToLower` | src/lib/utils.ts:13 | Same length; each character is lowered in place; a string without upper-case letters is unchanged. |
| `Text.DropWhile` | src/lib/utils.ts:18 | The result is a suffix; every character dropped satisfies the test; the result is empty or starts with a character that does not. |
| `Text.DropLastWhile` | src/lib/utils.ts:19 | The result is a prefix; every character dropped satisfies the test; the result is empty or ends with a character that does not. |
| `Text.DropWhileExact` | src/lib/utils.ts:18 | Dropping the leading class characters from a run followed by a non-class start removes exactly the run. |
| `Text.DropWhileSplits` | src/lib/utils.ts:18 | The input is the dropped part followed by the result, and every dropped character satisfies the test. |
| `Text.DropLastWhileSplits` | src/lib/utils.ts:19 | The input is the result followed by the dropped part, and every dropped character satisfies the test. |
| `Text.Trim` | src/lib/utils.ts:14 | The result is never longer; a non-empty result has no white space at either end; it is empty exactly for all-white-space input; input without white space at its ends is unchanged. |
| `Text.TrimIsInfix` | src/lib/utils.ts:14 | The input is a blank run, then the trimmed text, then a blank run: trimming removes white space at the two ends and nothing else. |
| `Text.TrimChars` | src/lib/utils.ts:14 | Every character of the trimmed string occurs in the input. |
| `Text.TrimIdempotent` | src/lib/utils.ts:14 | Trimming twice is trimming once. |
| `Text.TrimEmptyIffBlank` | src/components/cms/ArticleForm.tsx:109 | `s.trim()` is empty exactly when `s` is all white space. |
| `Text.CollapseFrom` | src/lib/utils.ts:15 | A run of class characters at the start becomes `c` unless the scan was already inside a run; any other first character is kept. |
| `Text.CollapseRuns` | src/lib/utils.ts:15-17 | `replace(/x+/g, c)`: the scan starts outside a run. Its properties are those of `CollapseFrom` and the lemmas below. |
| `Text.CollapseFromChars` | src/lib/utils.ts:15-17 | The result holds only the replacement character and characters of the input outside the class. |
| `Text.CollapseFromSeparated` | src/lib/utils.ts:17 | When the replacement is itself in the class, no two class characters are adjacent in the result. |
| `Text.CollapseFromNone` | src/lib/utils.ts:15 | A string with no class character is unchanged. |
| `Text.CollapseFromFixed` | src/lib/utils.ts:17 | A string whose class characters are single replacement characters is unchanged. |
| `Text.CollapseFromAppend` | src/lib/utils.ts:15 | The replacement works left to right: the result for `a + b` is the result for `a` followed by the result for `b`, scanned from where `a` ended. |
| `Text.CollapseFromRun` | src/lib/utils.ts:15 | A run scanned from inside a run contributes nothing. |
| `Text.CollapseRunsInnerRun` | src/lib/utils.ts:15 | A run of class characters between two other characters becomes exactly one replacement character: a white-space run becomes one hyphen, and so does a run of hyphens. |
| `Text.SplitWhitespaceFrom` | src/lib/utils.ts:42 | `split(/\s+/)` always returns at least one piece. |
| `Text.SplitWhitespace` | src/lib/utils.ts:42 | `split(/\s+/)` scanned from outside a run: it always yields at least one piece, as JavaScript's `split` does. `SplitWhitespaceLength` and `SplitWhitespaceWords` give the exact count. |
| `Text.SplitWhitespaceLength` | src/lib/utils.ts:42 | `split(/\s+/)` gives one piece more than there are white-space runs. |
| `Text.WordsAlternate` | src/lib/utils.ts:42 | In a string that does not end in white space, word runs and white-space runs alternate, so their counts differ by at most one. |
| `Text.SplitWhitespaceWords` | src/lib/utils.ts:42 | On trimmed text, `split(/\s+/)` gives one piece per word, and one piece for empty text. |
| `Text.OccurrencesAppend` | src/components/cms/ArticleForm.tsx:142 | Occurrences of a character add up over a concatenation. |
| `Text.Split` | src/components/cms/ArticleForm.tsx:135 | `split(' ')` always returns at least one piece. |
| `Text.SplitLength` | src/components/cms/ArticleForm.tsx:135 | `split(' ')` returns one piece more than there are spaces. |
| `Text.Join` | src/components/cms/ArticleForm.tsx:142 | `join(sep)`: parts with the separator between neighbours. `SplitJoin` and `JoinOccurrences` state what it produces. |
| `Text.SplitJoin` | src/components/cms/ArticleForm.tsx:142 | Joining the pieces of a split with the separator restores the string. |
| `Text.JoinOccurrences` | src/components/cms/ArticleForm.tsx:142 | A join of `n` parts with a one-character separator contains it `n - 1` times more than the parts do. |
| `Text.OccursAtShift` | src/components/cms/CMSDashboard.tsx:82-83 | An occurrence one place further on is an occurrence in the string without its first character. |
| `Text.Contains` | src/components/cms/CMSDashboard.tsx:82-83 | `includes` holds exactly when the needle occurs at some position of the text. |
| `Utils.Slugify` | src/lib/utils.ts:8-20 | A slug holds only `[a-z0-9_-]`, so it has no white space. It never contains `--`, and it neither starts nor ends with `-`. |
| `Utils.LowerTrimmedHasNoUpper` | src/lib/utils.ts:13-14 | The lowered, trimmed title has no upper-case letter. |
| `Utils.KeptAreSlugChars` | src/lib/utils.ts:15-16 | After white space becomes hyphens and non-word characters are dropped, only slug characters remain. |
| `Utils.EdgeTrimmedIsSlug` | src/lib/utils.ts:17-19 | Removing the edge hyphens from slug characters without `--` leaves a slug. |
| `Utils.SlugifyFixesSlugs` | src/lib/utils.ts:8-20 | A string already shaped like a slug is its own slug. |
| `Utils.SlugifyIdempotent` | src/lib/utils.ts:8-20 | `slugify(slugify(s)) == slugify(s)`. |
| `Utils.Max` | src/lib/utils.ts:43 | `Math.max`: the result is at least both arguments and is one of them. |
| `Utils.CeilDiv` | src/lib/utils.ts:43 | `Math.ceil(n / d)` for naturals: the least `q` with `n <= q * d`. |
| `Utils.ReadTime` | src/lib/utils.ts:40-44 | The estimate is at least one minute. |
| `Utils.ReadTimeCountsWords` | src/lib/utils.ts:40-44 | Reading time is `max(1, ceil(words / 200))` over the words of the trimmed text; it is at least 1, and 1 for blank text. |
| `Utils.SliceEnd` | src/lib/utils.ts:48 | Where `slice(0, end)` stops. It is always within the string: at `end` when `end` is in range, and at the length when `end` is beyond it. |
| `Utils.TruncateText` | src/lib/utils.ts:46-49 | Text no longer than the limit is returned unchanged. Longer text ends in `...` after a part with no white space at either edge, and the result is at most `maxLength + 3` long. |
| `Utils.TruncateKeepsPrefix` | src/lib/utils.ts:46-49 | Before the `...`, a shortened text is exactly the `slice(0, maxLength)` prefix with a blank run removed from each end. |
| `Types.Merge` | src/components/cms/RichTextEditor.tsx:49 | Every field the patch sets takes the patch's value, and every field it leaves out keeps the block's value. So an empty patch changes nothing. |
| `Types.MergeIdempotent` | src/components/cms/RichTextEditor.tsx:49 | Merging the same patch twice is merging it once. |
| `Types.OrElse` | src/components/ArticleRenderer.tsx:66 | `a \|\| b`: the value when it is present and not empty, else the fallback. |
| `Types.Truthy` | src/components/ArticleRenderer.tsx:66 | JavaScript truthiness of an optional string: present and not `""`. `OrElse` is stated through it. |
| `RichTextEditor.IndexOf` | src/components/cms/RichTextEditor.tsx:59 | -1 exactly for an unknown id; otherwise the first block with that id. |
| `RichTextEditor.NewSection` | src/components/cms/RichTextEditor.tsx:35-42 | The block `addSection` creates. `AddSection` states its fields. |
| `RichTextEditor.AddSection` | src/components/cms/RichTextEditor.tsx:34-45 | Exactly one block is added, at the end, and earlier blocks are unchanged. The new block has empty content. A heading gets level 2. A list gets the bullet style and the items `[""]`. No other type gets these fields. |
| `RichTextEditor.UpdateSection` | src/components/cms/RichTextEditor.tsx:47-52 | Same length and order; the patch is merged into every block with the id; every other block is unchanged. |
| `RichTextEditor.UpdateSectionAbsent` | src/components/cms/RichTextEditor.tsx:47-52 | Updating an unknown id changes nothing. |
| `RichTextEditor.UpdateSectionIdempotent` | src/components/cms/RichTextEditor.tsx:47-52 | Applying the same id-preserving update twice is applying it once. |
| `RichTextEditor.RemoveSection` | src/components/cms/RichTextEditor.tsx:54-56 | No block with the id is left; every other block keeps its multiplicity and its relative order. |
| `RichTextEditor.RemoveSectionAbsent` | src/components/cms/RichTextEditor.tsx:54-56 | Removing an unknown id changes nothing. |
| `RichTextEditor.RemoveUndoesAdd` | src/components/cms/RichTextEditor.tsx:34-56 | Removing a just-added block whose id was unused restores the list. |
| `RichTextEditor.Swap` | src/components/cms/RichTextEditor.tsx:65-66 | Two slots trade contents, all others stay, and the multiset of blocks is unchanged. |
| `RichTextEditor.MoveSection` | src/components/cms/RichTextEditor.tsx:58-68 | Nothing happens for an unknown id, for the first block moving up, or for the last block moving down. Otherwise the first block with the id trades places with its neighbour. Length and the multiset of blocks are always kept. |
| `RichTextEditor.MoveDownThenUp` | src/components/cms/RichTextEditor.tsx:58-68 | With unique ids, a successful move down followed by a move up restores the list. |
| `RichTextEditor.MoveUpThenDown` | src/components/cms/RichTextEditor.tsx:58-68 | With unique ids, a successful move up followed by a move down restores the list. |
| `RichTextEditor.FindSection` | src/components/cms/RichTextEditor.tsx:78 | The first block with the id, absent exactly for an unknown id. |
| `RichTextEditor.ItemsOf` | src/components/cms/RichTextEditor.tsx:78-79 | The list items of the first block with the id; absent for an unknown id. |
| `RichTextEditor.UpdateItemsReplaces` | src/components/cms/RichTextEditor.tsx:80-82 | Merging an items-only patch replaces the items of every block with the id. Each such block keeps its id, type, content, level, list type and image. Every other block is unchanged. |
| `RichTextEditor.AddListItem` | src/components/cms/RichTextEditor.tsx:77-84 | For a block with list items, every block with the id gets the found items plus one `""` at the end. Only `listItems` changes. The length and all other blocks stay. Nothing changes when the first block with the id has no items. |
| `RichTextEditor.SetItem` | src/components/cms/RichTextEditor.tsx:89-90 | An index in range replaces only that item. The index one past the end appends. A negative index touches nothing. |
| `RichTextEditor.UpdateListItem` | src/components/cms/RichTextEditor.tsx:86-93 | Every block with the id gets the found items with the indexed slot assigned, as `SetItem` states. Only `listItems` changes. The length and all other blocks stay. Nothing changes when the found block has no items. |
| `RichTextEditor.RemoveAt` | src/components/cms/RichTextEditor.tsx:98 | An index in range drops exactly that item and keeps the order of the rest; any other index keeps all items. |
| `RichTextEditor.RemoveListItem` | src/components/cms/RichTextEditor.tsx:95-101 | Nothing changes unless the list has more than one item. When it acts, every block with the id gets the found items without the indexed one, and only `listItems` changes. A changed block still has at least one item. |
| `RichTextEditor.ItemsReplacedKeepsIndex` | src/components/cms/RichTextEditor.tsx:77-101 | Replacing items keeps every id in place, so the first block with an id does not move. |
| `RichTextEditor.ItemsReplacedTwice` | src/components/cms/RichTextEditor.tsx:77-101 | Two item replacements in a row amount to the second one. |
| `RichTextEditor.ItemsReplacedSame` | src/components/cms/RichTextEditor.tsx:77-101 | With unique ids, giving a block back its own items changes nothing. |
| `RichTextEditor.RemoveUndoesAddItem` | src/components/cms/RichTextEditor.tsx:77-101 | With unique ids and no empty list, removing the item just added restores the list. |
| `RichTextEditor.UpdateItemSameValue` | src/components/cms/RichTextEditor.tsx:86-93 | With unique ids, writing an item's own value back changes nothing. |
| `RichTextEditor.SetItemsKeepsListsNonEmpty` | src/components/cms/RichTextEditor.tsx:77-101 | Replacing the items of the blocks with an id by a non-empty list keeps every list non-empty. |
| `RichTextEditor.AddKeepsListsNonEmpty` | src/components/cms/RichTextEditor.tsx:34-45 | A new list starts with one item, so no list is left empty. |
| `RichTextEditor.RemoveKeepsListsNonEmpty` | src/components/cms/RichTextEditor.tsx:54-56 | Removing blocks never leaves a list without items. |
| `RichTextEditor.MoveKeepsListsNonEmpty` | src/components/cms/RichTextEditor.tsx:58-68 | Reordering never leaves a list without items. |
| `RichTextEditor.ItemEditsKeepListsNonEmpty` | src/components/cms/RichTextEditor.tsx:77-101 | Adding, changing and removing list items never leaves a list without items. |
| `RichTextEditor.SectionEditor.constructor` | src/components/cms/RichTextEditor.tsx:27-32 | The editor starts from the list it is given. |
| `RichTextEditor.SectionEditor.Add` | src/components/cms/RichTextEditor.tsx:34-45 | The new state is the old list with the new block appended, and lists stay non-empty. |
| `RichTextEditor.SectionEditor.Update` | src/components/cms/RichTextEditor.tsx:47-52 | The new state is the merged list. |
| `RichTextEditor.SectionEditor.Remove` | src/components/cms/RichTextEditor.tsx:54-56 | The new state is the filtered list, and lists stay non-empty. |
| `RichTextEditor.SectionEditor.Move` | src/components/cms/RichTextEditor.tsx:58-68 | Swapping two slots of an array copy yields the moved list, and lists stay non-empty. |
| `RichTextEditor.SectionEditor.AddItem` | src/components/cms/RichTextEditor.tsx:77-84 | The new state is `AddListItem` of the old one: one `""` more in the items of the blocks with the id, nothing else changed. Lists stay non-empty. |
| `RichTextEditor.SectionEditor.UpdateItem` | src/components/cms/RichTextEditor.tsx:86-93 | Assigning one slot of a copy of the items yields `UpdateListItem` of the old state: only the items of the blocks with the id change. Lists stay non-empty. |
| `RichTextEditor.SectionEditor.RemoveItem` | src/components/cms/RichTextEditor.tsx:95-101 | The new state is the list with the item removed, and lists stay non-empty. |
| `Storage.MergeItem` | src/utils/localStorage.ts:30 | The patch's id wins when present. The fields are the union of both, with the patch's values winning. |
| `Storage.IndexOfId` | src/utils/localStorage.ts:28 | -1 exactly when no record has the id; otherwise the first record with it. |
| `Storage.UpdateFirst` | src/utils/localStorage.ts:26-33 | Same length. For an unknown id, the list is unchanged. Otherwise the first match is merged and every other position is unchanged. |
| `Storage.UpdateFirstOnly` | src/utils/localStorage.ts:28-30 | A later record with the same id is left as it was. |
| `Storage.RemoveId` | src/utils/localStorage.ts:37 | No record with the id remains; the others keep their multiplicity and order. |
| `Storage.RemoveIdAbsent` | src/utils/localStorage.ts:35-39 | Removing an absent id leaves an equal list. |
| `Storage.RemoveIdIdempotent` | src/utils/localStorage.ts:35-39 | Removing twice is removing once. |
| `Storage.RemoveAfterAdd` | src/utils/localStorage.ts:20-39 | Removing the id of a record just added removes it together with any older records of that id. |
| `Storage.Store.constructor` | src/utils/localStorage.ts:2 | A new store holds nothing. |
| `Storage.Store.Get` | src/utils/localStorage.ts:3-10 | A key with no stored value reads as the empty list; otherwise as the stored list. |
| `Storage.Store.Set` | src/utils/localStorage.ts:12-18 | A later read of the key returns the list written, and no other key changes. |
| `Storage.Store.Add` | src/utils/localStorage.ts:20-24 | The key's list becomes the old list with the item at the end, and no other key changes. |
| `Storage.Store.Update` | src/utils/localStorage.ts:26-33 | With no record of that id, nothing is written. Otherwise the key holds the list with the first match merged. No other key changes. |
| `Storage.Store.Remove` | src/utils/localStorage.ts:35-40 | The key holds the filtered list, written even for an absent key, and no other key changes. |
| `ArticleForm.InitialFormFailsChecked` | src/components/cms/ArticleForm.tsx:39-50 | The fresh form (every text empty) with no blocks fails exactly the five checked rules: title, excerpt, category, slug and content. |
| `ArticleForm.WithValue` | src/components/cms/ArticleForm.tsx:76 | `{ ...prev, [field]: value }`: the field takes the value and every other field keeps its own. |
| `ArticleForm.LoadArticle` | src/components/cms/ArticleForm.tsx:57-73 | The form copies the article's fields, with `""` for absent optional texts, and takes its blocks as the sections. |
| `ArticleForm.InputChange` | src/components/cms/ArticleForm.tsx:75-87 | The field takes the value, and a new title also sets the slug to the title's slug. A pending error on the field is blanked. Status, tags and the tag input are untouched. |
| `ArticleForm.InputChangeKeepsOtherFields` | src/components/cms/ArticleForm.tsx:75-81 | No other field changes, except the slug after a title edit. |
| `ArticleForm.TitleEditGivesSlug` | src/components/cms/ArticleForm.tsx:79-81 | The slug a title edit produces is always slug-shaped. |
| `ArticleForm.AddTag` | src/components/cms/ArticleForm.tsx:89-97 | The trimmed input is appended only when it is non-blank and not already present, and only then is the input cleared. Otherwise nothing changes. |
| `ArticleForm.RemoveTag` | src/components/cms/ArticleForm.tsx:99-104 | Every copy of the tag goes; the other tags keep their multiplicity and order. |
| `ArticleForm.AddTagKeepsTagsWellFormed` | src/components/cms/ArticleForm.tsx:89-97 | Adding keeps the tags free of repetitions, blanks and untrimmed entries. |
| `ArticleForm.RemoveTagKeepsTagsWellFormed` | src/components/cms/ArticleForm.tsx:99-104 | Removing keeps the tags free of repetitions, blanks and untrimmed entries. |
| `ArticleForm.Message` | src/components/cms/ArticleForm.tsx:110-126 | The five Polish messages. A field has a non-empty message exactly when it has a rule. |
| `ArticleForm.Judge` | src/components/cms/ArticleForm.tsx:109-127 | The five rule outcomes: blank title, blank excerpt, empty category, blank slug, and blank content with no blocks. `ValidateForm` is proved against it. |
| `ArticleForm.Record` | src/components/cms/ArticleForm.tsx:109-127 | One `if` of the validation: a failed rule writes its message under its field. `CollectedKeys` and `CollectedMessages` state the result of all five. |
| `ArticleForm.CollectedKeys` | src/components/cms/ArticleForm.tsx:106-129 | After the five rules are checked in order, the error record holds exactly the fields whose rule failed, and only fields that have a rule. |
| `ArticleForm.CollectedMessages` | src/components/cms/ArticleForm.tsx:109-127 | Each recorded field carries its own rule's message. |
| `ArticleForm.JudgedRecord` | src/components/cms/ArticleForm.tsx:106-132 | The record the five rules leave holds, under each failed rule's field, that rule's message. It has no other keys, and it is empty exactly when no rule fails. |
| `ArticleForm.TrimmedEmpty` | src/components/cms/ArticleForm.tsx:109 | `!s.trim()` holds exactly for blank strings. |
| `ArticleForm.ValidateForm` | src/components/cms/ArticleForm.tsx:106-132 | There is an error exactly for each failed rule, with that rule's message, and no other key. Validation succeeds exactly when no rule fails. The rules: blank title, blank excerpt, empty category, blank slug, and blank content with no sections. |
| `ArticleForm.FormWordCount` | src/components/cms/ArticleForm.tsx:134-144 | The form's word count: the pieces of the content plus those of every block. `FormReadTime` is proved against it; `WordsCoverBlocks` bounds it. |
| `ArticleForm.FormReadTime` | src/components/cms/ArticleForm.tsx:134-147 | The loop's count is the form's word count, and the result is `max(1, ceil(count / 200))`, so at least 1. |
| `ArticleForm.Pieces` | src/components/cms/ArticleForm.tsx:135-142 | `split(' ').length`: always at least one, even for `""`. `PiecesCountsSpaces` gives the exact count. |
| `ArticleForm.PiecesCountsSpaces` | src/components/cms/ArticleForm.tsx:135 | A text counts one word more than it has single spaces. |
| `ArticleForm.ListWords` | src/components/cms/ArticleForm.tsx:142 | A list counts one word per item plus one per space inside its items. |
| `ArticleForm.WordsCoverBlocks` | src/components/cms/ArticleForm.tsx:134-144 | The count is at least one plus the number of list items over all blocks. |
| `ArticleForm.NonEmpty` | src/components/cms/ArticleForm.tsx:165-168 | `x \|\| undefined`: absent exactly for the empty string. |
| `ArticleForm.BuildArticle` | src/components/cms/ArticleForm.tsx:155-177 | An edited article keeps its id and creation time, and a new one takes the fresh id and now. updatedAt is always now. publishedAt is `""` unless the article is published; then it is the earlier publication time if there is one, else now. The form fields, sections, status and author are copied. |
| `ArticleForm.ResubmitKeepsArticle` | src/components/cms/ArticleForm.tsx:57-177 | Loading an article and submitting it unchanged returns the same article, except for reading time, author and update time. |
| `ArticleForm.Submit` | src/components/cms/ArticleForm.tsx:149-185 | No article is produced exactly when a rule fails. Otherwise the article has a non-blank title, excerpt and slug, a category, and content or blocks. |
| `CMSDashboard.SaveInto` | src/components/cms/CMSDashboard.tsx:61-64 | When editing, every article with the edited id is replaced and length and order are kept. A new article is appended at the end. |
| `CMSDashboard.DeleteArticle` | src/components/cms/CMSDashboard.tsx:73-78 | No article with the id remains; the rest keep their multiplicity and order. |
| `CMSDashboard.DeleteUndoesNewSave` | src/components/cms/CMSDashboard.tsx:61-78 | Deleting a newly saved article with an unused id restores the table. |
| `CMSDashboard.SaveEditReplaces` | src/components/cms/CMSDashboard.tsx:62-63 | The saved record stands wherever the edited id stood, and, when it keeps that id, nowhere else. |
| `CMSDashboard.Matches` | src/components/cms/CMSDashboard.tsx:81-86 | The test one row passes: the search and the status filter. `Filtered` and `EmptySearchShowsAll` state its effect. |
| `CMSDashboard.Filtered` | src/components/cms/CMSDashboard.tsx:81-86 | An article is shown iff its lowered title or excerpt contains the lowered query and the filter is 'all' or its status. A shown article appears as often as in the table, and shown articles keep their order. |
| `CMSDashboard.ContainsEmpty` | src/components/cms/CMSDashboard.tsx:82-83 | Every text contains the empty query. |
| `CMSDashboard.EmptySearchShowsAll` | src/components/cms/CMSDashboard.tsx:81-86 | An empty query with the filter on 'all' shows every article. |
| `CMSDashboard.WithStatus` | src/components/cms/CMSDashboard.tsx:108-110 | The test `a.status === status` that each stats count filters by. |
| `CMSDashboard.ComputeStats` | src/components/cms/CMSDashboard.tsx:106-111 | The total is the table size. Each of published, draft and archived is the number of articles with that status, and the three add up to the total. |
| `CMSDashboard.StatusCountsAddUp` | src/components/cms/CMSDashboard.tsx:106-111 | Every article has one of three statuses, so the three counts add up to the table size. |
| `CMSDashboard.BadgeVariant` | src/components/cms/CMSDashboard.tsx:88-95 | The badge variant per status: published `default`, draft `secondary`, archived `outline`. |
| `CMSDashboard.StatusLabel` | src/components/cms/CMSDashboard.tsx:97-104 | The Polish label per status. `StatusDisplayDistinct` states that labels and variants tell the statuses apart. |
| `CMSDashboard.SeedArticle` | src/components/cms/CMSDashboard.tsx:45-53 | A fixture becomes a published article. Its creation and update times are its publication time. Its body and tags are empty. Its catalogue fields are kept. |
| `CMSDashboard.Seed` | src/components/cms/CMSDashboard.tsx:40-59 | A non-empty store is shown as it is; an empty one gives one seeded article per fixture, in order. |
| `CMSDashboard.SeededAllPublished` | src/components/cms/CMSDashboard.tsx:43-55 | A freshly seeded table counts every article as published and none as draft. |
| `CMSDashboard.StatusDisplayDistinct` | src/components/cms/CMSDashboard.tsx:88-104 | Different statuses get different labels and different badge variants. |
| `CMSDashboard.Dashboard.constructor` | src/components/cms/CMSDashboard.tsx:33-38 | The dashboard starts with an empty table, the form closed and nothing being edited. |
| `CMSDashboard.Dashboard.Load` | src/components/cms/CMSDashboard.tsx:40-59 | The table is the seed of the store, and the store holds the table afterwards. |
| `CMSDashboard.Dashboard.SaveArticle` | src/components/cms/CMSDashboard.tsx:61-71 | Table and store become the saved table; the form closes and nothing is being edited. |
| `CMSDashboard.Dashboard.Delete` | src/components/cms/CMSDashboard.tsx:73-79 | Table and store become the table without the id. |
| `CMSDashboard.Dashboard.BeginEdit` | src/components/cms/CMSDashboard.tsx:284-287 | The article is being edited and the form opens; the table is untouched. |
| `CMSDashboard.Dashboard.BeginNew` | src/components/cms/CMSDashboard.tsx:214 | The form opens, and the article being edited is left as it was. |
| `CMSDashboard.Dashboard.Cancel` | src/components/cms/CMSDashboard.tsx:119-122 | The form closes and nothing is being edited. |
| `ArticleRenderer.HeadingClass` | src/components/ArticleRenderer.tsx:16-23 | There is a class exactly for levels 1 to 6. |
| `ArticleRenderer.HeadingKey` | src/components/ArticleRenderer.tsx:26 | `level \|\| 2`: an absent level and level 0 select 2, and any other level selects itself. |
| `ArticleRenderer.RenderSection` | src/components/ArticleRenderer.tsx:12-87 | Each block type has its own element, and an unknown type renders nothing. Headings, paragraphs and quotes show the block text. |
| `ArticleRenderer.HeadingLevelsAgree` | src/components/ArticleRenderer.tsx:15-26 | A heading of level 1 to 6 gets the element and the class of that level. |
| `ArticleRenderer.HeadingFallbackMismatch` | src/components/ArticleRenderer.tsx:15-26 | Without a level, or with level 0, the class is that of level 2 but the element is not `h2`. |
| `ArticleRenderer.HeadingOutOfRangeUnstyled` | src/components/ArticleRenderer.tsx:16-26 | Any other level outside 1 to 6 gets no class. |
| `ArticleRenderer.ListRendering` | src/components/ArticleRenderer.tsx:45-57 | A list is ordered iff numbered, with the matching class, and shows one entry per item in order. |
| `ArticleRenderer.ImageRendering` | src/components/ArticleRenderer.tsx:59-77 | Without an address the box is empty. With one, alt is the caption or else the text, and the caption line appears iff there is a caption. |
| `ArticleRenderer.RenderArticle` | src/components/ArticleRenderer.tsx:7-97 | A missing or empty body renders nothing. Otherwise there is one wrapper per block, in order, keyed by the block id. |
| `PromiseTracker.FirstPos` | src/components/PromiseTracker.tsx:68 | The first position of a value: it holds the value and no earlier position does. |
| `PromiseTracker.FirstPosAppend` | src/components/PromiseTracker.tsx:68 | Appending a value moves no first position of a value already present. |
| `PromiseTracker.Dedup` | src/components/PromiseTracker.tsx:68 | The result has no repetitions, is never longer, and holds exactly the input's values. Its values come in the order of their first occurrence in the input. |
| `PromiseTracker.CategoryOf` | src/components/PromiseTracker.tsx:68 | One category per promise, in order. |
| `PromiseTracker.Categories` | src/components/PromiseTracker.tsx:68 | Each promise's category appears exactly once, and every listed category belongs to some promise. |
| `PromiseTracker.FilterByCategory` | src/components/PromiseTracker.tsx:69-71 | 'all' yields every promise. Any other choice yields exactly the promises of that category, each as often as in the input, in their original order. |
| `PromiseTracker.ListedCategoryNonEmpty` | src/components/PromiseTracker.tsx:68-71 | Choosing a listed category shows at least one promise. |
| `PromiseTracker.WithStatus` | src/components/PromiseTracker.tsx:106-109 | The test `p.status === status` that each stats count filters by. |
| `PromiseTracker.GetStats` | src/components/PromiseTracker.tsx:104-111 | The total is the number of promises. Each of completed, in progress, not started and broken is the number of promises in that state, and the four add up to the total. |
| `PromiseTracker.StatusCountsAddUp` | src/components/PromiseTracker.tsx:104-110 | Every promise has one of four states, so the four counts add up to the total. |
| `PromiseTracker.StatusColor` | src/components/PromiseTracker.tsx:86-93 | The colour classes per state. |
| `PromiseTracker.StatusText` | src/components/PromiseTracker.tsx:95-102 | The Polish text per state. `StatusDisplayDistinct` states that texts and colours tell the states apart. |
| `PromiseTracker.StatusDisplayDistinct` | src/components/PromiseTracker.tsx:86-102 | Different states get different texts and different colours. |

## Left out

- Unicode normalisation. `slugify` first applies `normalize('NFD')` and strips combining marks (src/lib/utils.ts:11-12). `Utils.Slugify` starts from the text after that step.
- Text.ToLower: only ASCII letters are lowered. Unicode lower-casing of non-ASCII letters is not modelled.
- Utils.TruncateText: lengths count characters, not the UTF-16 code units JavaScript counts. `maxLength` is an integer. A fractional, non-numeric or `NaN` `maxLength` is not modelled.
- `formatDate`, `formatDateTime` and `cn` are library wrappers for locale formatting and class merging.
- `handleImageUpload` relies on the browser's `URL.createObjectURL`.
- JSX markup, toasts, the `confirm()` dialog before a delete, the `isSubmitting` flag and the asynchronous submit.
- Storage.Store.Get: the store is a map of lists. JSON encoding, a stored value that does not parse, and the catch-all fallbacks are not modelled. So a written list always reads back unchanged.
- The `STORAGE_KEYS` names are only constants.
- `getStoredData`, `saveToStorage` and the storage code behind them are not part of this model. The dashboard's `stored` field stands for the collection under `cms_articles`.
- ArticleForm.BuildArticle: the `attachments`, `sources` and `relatedArticles` copied from the edited article are not modelled.
- RichTextEditor.UpdateListItem: JavaScript assignment far past the end of the items leaves holes. The model leaves the items unchanged for any index beyond one past the end.
- Types.Merge: a patch that sets a field explicitly to `undefined` is modelled as one that does not mention it.
- ArticleForm.InputChange: field names are limited to the eight text inputs. The error record is keyed by field rather than by name.
- The `default` branches of the status switches cannot be reached, because the status types are closed unions. `getStatusIcon` only returns icons.
- ArticleRenderer.HeadingKey: a heading level is an integer; fractional and `NaN` levels are not modelled.
- The fixture lists (`mockArticles`, `mockPromises`) are parameters.
- Other components and pages are not part of this model: citizen reports, the public registry, fact checks, the login form, and layout.
- No claim is made that ids are unique. Two additions in the same millisecond would share an id. So the move round trips assume unique ids.
