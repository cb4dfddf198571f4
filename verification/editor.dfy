/**
 * The section editor of `src/components/cms/RichTextEditor.tsx`: an article body is an
 * ordered list of typed blocks that the author appends, edits, removes and reorders.
 * Every operation is a function from the old list to the new one; `SectionEditor`
 * holds the list the parent component keeps and replaces it on each change.
 */
module RichTextEditor {

  import opened Wrappers
  import opened Seqs
  import opened Types

  datatype Direction = Up | Down

  /** Position of the first block with this id, or -1 (`findIndex`). */
  function IndexOf(sections: seq<ArticleSection>, id: string): (k: int)
    ensures -1 <= k < |sections|
    ensures k == -1 <==> forall i :: 0 <= i < |sections| ==> sections[i].id != id
    ensures k >= 0 ==> sections[k].id == id && forall i :: 0 <= i < k ==> sections[i].id != id
  {
    FirstIndex(sections, (b: ArticleSection) => b.id == id)
  }

  /** No two blocks share an id. */
  predicate UniqueIds(sections: seq<ArticleSection>) {
    forall i, j :: 0 <= i < j < |sections| ==> sections[i].id != sections[j].id
  }

  /** Every block that has list items has at least one. */
  predicate ListsNonEmpty(sections: seq<ArticleSection>) {
    forall i :: 0 <= i < |sections| && sections[i].listItems.Some? ==> |sections[i].listItems.value| >= 1
  }

  /** The block `addSection(type)` creates: empty content, and the defaults of its type. */
  function NewSection(kind: SectionType, id: string): ArticleSection {
    ArticleSection(
      id, kind, "",
      if kind == Heading then Some(2) else None,
      if kind == List then Some(Bullet) else None,
      if kind == List then Some([""]) else None,
      None, None)
  }

  /** `addSection(type)` with the fresh id `id`: one new block at the end, the rest untouched. */
  function AddSection(sections: seq<ArticleSection>, kind: SectionType, id: string): (r: seq<ArticleSection>)
    ensures |r| == |sections| + 1 && r[..|sections|] == sections
    ensures var b := r[|sections|];
      && b.id == id && b.kind == kind && b.content == ""
      && b.level == (if kind == Heading then Some(2) else None)
      && b.listType == (if kind == List then Some(Bullet) else None)
      && b.listItems == (if kind == List then Some([""]) else None)
      && b.imageUrl.None? && b.imageCaption.None?
  {
    sections + [NewSection(kind, id)]
  }

  /** `updateSection(id, updates)`: the updates are merged into every block with this id. */
  function UpdateSection(sections: seq<ArticleSection>, id: string, updates: SectionPatch): (r: seq<ArticleSection>)
    ensures |r| == |sections|
    ensures forall i :: 0 <= i < |r| ==>
      r[i] == if sections[i].id == id then Merge(sections[i], updates) else sections[i]
  {
    if sections == [] then []
    else
      var head := sections[0];
      [if head.id == id then Merge(head, updates) else head] + UpdateSection(sections[1..], id, updates)
  }

  /** Updating an id no block has changes nothing. */
  lemma UpdateSectionAbsent(sections: seq<ArticleSection>, id: string, updates: SectionPatch)
    requires IndexOf(sections, id) == -1
    ensures UpdateSection(sections, id, updates) == sections
  {
  }

  /** Applying the same update twice is applying it once, as long as it keeps the id. */
  lemma UpdateSectionIdempotent(sections: seq<ArticleSection>, id: string, updates: SectionPatch)
    requires updates.id.None? || updates.id == Some(id)
    ensures UpdateSection(UpdateSection(sections, id, updates), id, updates) == UpdateSection(sections, id, updates)
  {
    var once := UpdateSection(sections, id, updates);
    var twice := UpdateSection(once, id, updates);
    forall i | 0 <= i < |sections|
      ensures twice[i] == once[i]
    {
      UpdateBlockTwice(sections[i], id, updates);
    }
  }

  /** One block updated twice by an id-keeping patch is the block updated once. */
  lemma UpdateBlockTwice(b: ArticleSection, id: string, updates: SectionPatch)
    requires updates.id.None? || updates.id == Some(id)
    ensures var once := if b.id == id then Merge(b, updates) else b;
      (if once.id == id then Merge(once, updates) else once) == once
  {
    if b.id == id {
      MergeIdempotent(b, updates);
    }
  }

  /** `removeSection(id)`: every block with this id goes, the others stay in order. */
  function RemoveSection(sections: seq<ArticleSection>, id: string): (r: seq<ArticleSection>)
    ensures forall i :: 0 <= i < |r| ==> r[i].id != id
    ensures forall b: ArticleSection :: b.id != id ==> multiset(r)[b] == multiset(sections)[b]
    ensures IsSubsequence(r, sections)
  {
    FilterIsSubsequence(sections, (b: ArticleSection) => b.id != id);
    FilterMultiset(sections, (b: ArticleSection) => b.id != id);
    Filter(sections, (b: ArticleSection) => b.id != id)
  }

  /** Removing an id no block has changes nothing. */
  lemma RemoveSectionAbsent(sections: seq<ArticleSection>, id: string)
    requires IndexOf(sections, id) == -1
    ensures RemoveSection(sections, id) == sections
  {
    FilterAll(sections, (b: ArticleSection) => b.id != id);
  }

  /** Removing a block just added, and then nothing else of that id, undoes the add. */
  lemma RemoveUndoesAdd(sections: seq<ArticleSection>, kind: SectionType, id: string)
    requires IndexOf(sections, id) == -1
    ensures RemoveSection(AddSection(sections, kind, id), id) == sections
  {
    FilterAppend(sections, [NewSection(kind, id)], (b: ArticleSection) => b.id != id);
    FilterAll(sections, (b: ArticleSection) => b.id != id);
  }

  /** `s` with the elements at `i` and `j` exchanged. */
  function Swap(s: seq<ArticleSection>, i: nat, j: nat): (r: seq<ArticleSection>)
    requires i < |s| && j < |s|
    ensures |r| == |s| && r[i] == s[j] && r[j] == s[i]
    ensures forall k :: 0 <= k < |s| && k != i && k != j ==> r[k] == s[k]
    ensures multiset(r) == multiset(s)
  {
    s[i := s[j]][j := s[i]]
  }

  /** Where a move of the block at `index` in direction `dir` would put it. */
  function Target(index: int, dir: Direction): int {
    if dir == Up then index - 1 else index + 1
  }

  /**
   * `moveSection(id, direction)`: the first block with this id trades places with its
   * neighbour; nothing happens for an unknown id, for the first block moving up or for
   * the last block moving down.
   */
  function MoveSection(sections: seq<ArticleSection>, id: string, dir: Direction): (r: seq<ArticleSection>)
    ensures |r| == |sections| && multiset(r) == multiset(sections)
    ensures var k := IndexOf(sections, id);
      k == -1 || Target(k, dir) < 0 || Target(k, dir) >= |sections| ==> r == sections
    ensures var k := IndexOf(sections, id); var t := Target(k, dir);
      k >= 0 && 0 <= t < |sections| ==>
        && r[k] == sections[t] && r[t] == sections[k]
        && forall i :: 0 <= i < |r| && i != k && i != t ==> r[i] == sections[i]
  {
    var index := IndexOf(sections, id);
    if index == -1 then sections
    else
      var newIndex := Target(index, dir);
      if newIndex < 0 || newIndex >= |sections| then sections
      else Swap(sections, index, newIndex)
  }

  /** With unique ids, moving a block down and then up again restores the list. */
  lemma MoveDownThenUp(sections: seq<ArticleSection>, id: string)
    requires UniqueIds(sections)
    requires 0 <= IndexOf(sections, id) < |sections| - 1
    ensures MoveSection(MoveSection(sections, id, Down), id, Up) == sections
  {
    var k := IndexOf(sections, id);
    var moved := MoveSection(sections, id, Down);
    assert moved[k + 1].id == id && moved[k].id != id;
    assert IndexOf(moved, id) == k + 1;
  }

  /** With unique ids, moving a block up and then down again restores the list. */
  lemma MoveUpThenDown(sections: seq<ArticleSection>, id: string)
    requires UniqueIds(sections)
    requires 0 < IndexOf(sections, id)
    ensures MoveSection(MoveSection(sections, id, Up), id, Down) == sections
  {
    var k := IndexOf(sections, id);
    var moved := MoveSection(sections, id, Up);
    assert moved[k - 1].id == id;
    assert forall i :: 0 <= i < k - 1 ==> moved[i] == sections[i];
    assert IndexOf(moved, id) == k - 1;
  }

  /** The first block with this id (`sections.find`). */
  function FindSection(sections: seq<ArticleSection>, id: string): (r: Option<ArticleSection>)
    ensures r.None? <==> IndexOf(sections, id) == -1
    ensures r.Some? ==> r.value == sections[IndexOf(sections, id)]
  {
    Find(sections, (b: ArticleSection) => b.id == id)
  }

  /** The list items of the first block with this id, when it has any. */
  function ItemsOf(sections: seq<ArticleSection>, id: string): (r: Option<seq<string>>)
    ensures IndexOf(sections, id) == -1 ==> r.None?
    ensures IndexOf(sections, id) >= 0 ==> r == sections[IndexOf(sections, id)].listItems
  {
    var found := FindSection(sections, id);
    if found.Some? then found.value.listItems else None
  }

  function ItemsPatch(items: seq<string>): SectionPatch {
    NoChanges.(listItems := Some(items))
  }

  /**
   * `r` is `sections` with the list items of every block with this id replaced by `items`;
   * each such block keeps its id, type, content, level, list type and image, and every other
   * block is unchanged.
   */
  predicate ItemsReplaced(sections: seq<ArticleSection>, r: seq<ArticleSection>, id: string, items: seq<string>) {
    && |r| == |sections|
    && forall i :: 0 <= i < |r| ==>
      r[i] == if sections[i].id == id then sections[i].(listItems := Some(items)) else sections[i]
  }

  /** Merging an items-only patch replaces the items and nothing else. */
  lemma UpdateItemsReplaces(sections: seq<ArticleSection>, id: string, items: seq<string>)
    ensures ItemsReplaced(sections, UpdateSection(sections, id, ItemsPatch(items)), id, items)
  {
    var r := UpdateSection(sections, id, ItemsPatch(items));
    forall i | 0 <= i < |r| && sections[i].id == id
      ensures r[i] == sections[i].(listItems := Some(items))
    {
      assert r[i] == Merge(sections[i], ItemsPatch(items));
    }
  }

  /** `addListItem(id)`: one empty item more at the end of the list. */
  function AddListItem(sections: seq<ArticleSection>, id: string): (r: seq<ArticleSection>)
    ensures ItemsOf(sections, id).None? ==> r == sections
    ensures ItemsOf(sections, id).Some? ==>
      ItemsReplaced(sections, r, id, ItemsOf(sections, id).value + [""])
  {
    var items := ItemsOf(sections, id);
    if items.Some? then
      UpdateItemsReplaces(sections, id, items.value + [""]);
      UpdateSection(sections, id, ItemsPatch(items.value + [""]))
    else sections
  }

  /**
   * `newItems[itemIndex] = value` on a copy of the items: an index inside the list replaces
   * that item, the index just past the end appends, and a negative index touches no element.
   */
  function SetItem(items: seq<string>, index: int, value: string): (r: seq<string>)
    ensures 0 <= index < |items| ==>
      |r| == |items| && r[index] == value && forall i :: 0 <= i < |items| && i != index ==> r[i] == items[i]
    ensures index == |items| ==> r == items + [value]
    ensures (index < 0 || index > |items|) ==> r == items
  {
    if 0 <= index < |items| then items[index := value]
    else if index == |items| then items + [value]
    else items
  }

  /** `updateListItem(id, index, value)`. */
  function UpdateListItem(sections: seq<ArticleSection>, id: string, index: int, value: string): (r: seq<ArticleSection>)
    ensures ItemsOf(sections, id).None? ==> r == sections
    ensures ItemsOf(sections, id).Some? ==>
      ItemsReplaced(sections, r, id, SetItem(ItemsOf(sections, id).value, index, value))
  {
    var items := ItemsOf(sections, id);
    if items.Some? then
      UpdateItemsReplaces(sections, id, SetItem(items.value, index, value));
      UpdateSection(sections, id, ItemsPatch(SetItem(items.value, index, value)))
    else sections
  }

  /** `items.filter((_, i) => i !== index)`. */
  function RemoveAt(items: seq<string>, index: int): (r: seq<string>)
    ensures 0 <= index < |items| ==>
      && |r| == |items| - 1
      && (forall i :: 0 <= i < index ==> r[i] == items[i])
      && (forall i :: index <= i < |r| ==> r[i] == items[i + 1])
    ensures (index < 0 || index >= |items|) ==> r == items
  {
    if 0 <= index < |items| then items[..index] + items[index + 1..] else items
  }

  /**
   * `removeListItem(id, index)`: acts only when the list has more than one item, so every
   * block it changes still has at least one item afterwards.
   */
  function RemoveListItem(sections: seq<ArticleSection>, id: string, index: int): (r: seq<ArticleSection>)
    ensures |r| == |sections|
    ensures var items := ItemsOf(sections, id);
      items.None? || |items.value| <= 1 ==> r == sections
    ensures var items := ItemsOf(sections, id);
      items.Some? && |items.value| > 1 ==> ItemsReplaced(sections, r, id, RemoveAt(items.value, index))
    ensures forall i :: 0 <= i < |r| && r[i] != sections[i] ==>
      r[i].listItems.Some? && |r[i].listItems.value| >= 1
  {
    var items := ItemsOf(sections, id);
    if items.Some? && |items.value| > 1 then
      UpdateItemsReplaces(sections, id, RemoveAt(items.value, index));
      UpdateSection(sections, id, ItemsPatch(RemoveAt(items.value, index)))
    else sections
  }

  /** With unique ids, the ids of a list whose items were replaced are where they were. */
  lemma ItemsReplacedKeepsIndex(sections: seq<ArticleSection>, r: seq<ArticleSection>, id: string, items: seq<string>)
    requires ItemsReplaced(sections, r, id, items)
    ensures forall i :: 0 <= i < |r| ==> r[i].id == sections[i].id
    ensures IndexOf(r, id) == IndexOf(sections, id)
  {
  }

  /** Replacing the items twice is replacing them once with the second list. */
  lemma ItemsReplacedTwice(s: seq<ArticleSection>, mid: seq<ArticleSection>, r: seq<ArticleSection>,
                           id: string, first: seq<string>, second: seq<string>)
    requires ItemsReplaced(s, mid, id, first) && ItemsReplaced(mid, r, id, second)
    ensures ItemsReplaced(s, r, id, second)
  {
    forall i | 0 <= i < |s|
      ensures r[i] == if s[i].id == id then s[i].(listItems := Some(second)) else s[i]
    {
      assert mid[i].id == s[i].id;
    }
  }

  /** With unique ids, giving the block its own items back changes nothing. */
  lemma ItemsReplacedSame(s: seq<ArticleSection>, r: seq<ArticleSection>, id: string)
    requires UniqueIds(s) && ItemsOf(s, id).Some?
    requires ItemsReplaced(s, r, id, ItemsOf(s, id).value)
    ensures r == s
  {
    var k := IndexOf(s, id);
    forall i | 0 <= i < |s|
      ensures r[i] == s[i]
    {
      if s[i].id == id {
        assert i == k;
      }
    }
  }

  /**
   * With unique ids and non-empty lists, removing the item just added restores the list.
   * (From an empty list the add gives one item, which `removeListItem` refuses to remove.)
   */
  lemma RemoveUndoesAddItem(sections: seq<ArticleSection>, id: string)
    requires UniqueIds(sections) && ListsNonEmpty(sections) && ItemsOf(sections, id).Some?
    ensures RemoveListItem(AddListItem(sections, id), id, |ItemsOf(sections, id).value|) == sections
  {
    var items := ItemsOf(sections, id).value;
    var added := AddListItem(sections, id);
    ItemsReplacedKeepsIndex(sections, added, id, items + [""]);
    assert ItemsOf(added, id) == Some(items + [""]);
    assert RemoveAt(items + [""], |items|) == items;
    var removed := RemoveListItem(added, id, |items|);
    assert |ItemsOf(added, id).value| > 1;
    assert ItemsReplaced(added, removed, id, RemoveAt(ItemsOf(added, id).value, |items|));
    ItemsReplacedTwice(sections, added, removed, id, items + [""], items);
    ItemsReplacedSame(sections, removed, id);
  }

  /** With unique ids, writing an item's own value back changes nothing. */
  lemma UpdateItemSameValue(sections: seq<ArticleSection>, id: string, index: int)
    requires UniqueIds(sections) && ItemsOf(sections, id).Some?
    requires 0 <= index < |ItemsOf(sections, id).value|
    ensures UpdateListItem(sections, id, index, ItemsOf(sections, id).value[index]) == sections
  {
    var items := ItemsOf(sections, id).value;
    assert SetItem(items, index, items[index]) == items;
    ItemsReplacedSame(sections, UpdateListItem(sections, id, index, items[index]), id);
  }

  /** Replacing the items of the blocks with one id by a non-empty list keeps every list non-empty. */
  lemma SetItemsKeepsListsNonEmpty(sections: seq<ArticleSection>, id: string, items: seq<string>)
    requires ListsNonEmpty(sections) && |items| >= 1
    ensures ListsNonEmpty(UpdateSection(sections, id, ItemsPatch(items)))
  {
  }

  /** Adding a block keeps every list non-empty: a new list starts with one empty item. */
  lemma AddKeepsListsNonEmpty(sections: seq<ArticleSection>, kind: SectionType, id: string)
    requires ListsNonEmpty(sections)
    ensures ListsNonEmpty(AddSection(sections, kind, id))
  {
  }

  /** Removing blocks keeps every list non-empty. */
  lemma RemoveKeepsListsNonEmpty(sections: seq<ArticleSection>, id: string)
    requires ListsNonEmpty(sections)
    ensures ListsNonEmpty(RemoveSection(sections, id))
  {
    var removed := RemoveSection(sections, id);
    forall i | 0 <= i < |removed| && removed[i].listItems.Some?
      ensures |removed[i].listItems.value| >= 1
    {
      assert removed[i] in multiset(removed);
      assert removed[i] in sections;
    }
  }

  /** Reordering blocks keeps every list non-empty. */
  lemma MoveKeepsListsNonEmpty(sections: seq<ArticleSection>, id: string, dir: Direction)
    requires ListsNonEmpty(sections)
    ensures ListsNonEmpty(MoveSection(sections, id, dir))
  {
  }

  /** Adding, changing and removing list items never leaves a list block without items. */
  lemma ItemEditsKeepListsNonEmpty(sections: seq<ArticleSection>, id: string, index: int, value: string)
    requires ListsNonEmpty(sections)
    ensures ListsNonEmpty(AddListItem(sections, id))
    ensures ListsNonEmpty(UpdateListItem(sections, id, index, value))
    ensures ListsNonEmpty(RemoveListItem(sections, id, index))
  {
    var items := ItemsOf(sections, id);
    if items.Some? {
      SetItemsKeepsListsNonEmpty(sections, id, items.value + [""]);
      SetItemsKeepsListsNonEmpty(sections, id, SetItem(items.value, index, value));
      if |items.value| > 1 {
        SetItemsKeepsListsNonEmpty(sections, id, RemoveAt(items.value, index));
      }
    }
  }

  /**
   * The `sections` state the editor edits: each handler hands a new list to `onChange`,
   * which replaces the state. Ids and the clock come in as parameters.
   */
  class SectionEditor {
    var sections: seq<ArticleSection>

    constructor(initial: seq<ArticleSection>)
      ensures sections == initial
    {
      sections := initial;
    }

    /** `addSection(type)`; `id` stands for `Date.now().toString()`. */
    method Add(kind: SectionType, id: string)
      modifies this
      ensures sections == AddSection(old(sections), kind, id)
      ensures ListsNonEmpty(old(sections)) ==> ListsNonEmpty(sections)
    {
      if ListsNonEmpty(sections) {
        AddKeepsListsNonEmpty(sections, kind, id);
      }
      sections := sections + [NewSection(kind, id)];
    }

    /** `updateSection(id, updates)`. */
    method Update(id: string, updates: SectionPatch)
      modifies this
      ensures sections == UpdateSection(old(sections), id, updates)
    {
      sections := UpdateSection(sections, id, updates);
    }

    /** `removeSection(id)`. */
    method Remove(id: string)
      modifies this
      ensures sections == RemoveSection(old(sections), id)
      ensures ListsNonEmpty(old(sections)) ==> ListsNonEmpty(sections)
    {
      if ListsNonEmpty(sections) {
        RemoveKeepsListsNonEmpty(sections, id);
      }
      sections := RemoveSection(sections, id);
    }

    /** `moveSection(id, direction)`: copy the list, swap two slots of the copy, publish it. */
    method Move(id: string, dir: Direction)
      modifies this
      ensures sections == MoveSection(old(sections), id, dir)
      ensures ListsNonEmpty(old(sections)) ==> ListsNonEmpty(sections)
    {
      if ListsNonEmpty(sections) {
        MoveKeepsListsNonEmpty(sections, id, dir);
      }
      var index := IndexOf(sections, id);
      if index == -1 {
        return;
      }
      var newIndex := Target(index, dir);
      if newIndex < 0 || newIndex >= |sections| {
        return;
      }
      var copy := new ArticleSection[|sections|](i requires 0 <= i < |sections| reads this => sections[i]);
      copy[index], copy[newIndex] := copy[newIndex], copy[index];
      sections := copy[..];
    }

    /** `addListItem(sectionId)`. */
    method AddItem(id: string)
      modifies this
      ensures sections == AddListItem(old(sections), id)
      ensures ListsNonEmpty(old(sections)) ==> ListsNonEmpty(sections)
    {
      var items := ItemsOf(sections, id);
      if items.Some? {
        var newItems := items.value + [""];
        if ListsNonEmpty(sections) {
          SetItemsKeepsListsNonEmpty(sections, id, newItems);
        }
        sections := UpdateSection(sections, id, ItemsPatch(newItems));
      }
    }

    /** `updateListItem(sectionId, itemIndex, value)`: assigns one slot of a copy of the items. */
    method UpdateItem(id: string, index: int, value: string)
      modifies this
      ensures sections == UpdateListItem(old(sections), id, index, value)
      ensures ListsNonEmpty(old(sections)) ==> ListsNonEmpty(sections)
    {
      var items := ItemsOf(sections, id);
      if items.Some? {
        var newItems := items.value;
        if 0 <= index < |newItems| {
          newItems := newItems[index := value];
        } else if index == |newItems| {
          newItems := newItems + [value];
        }
        assert newItems == SetItem(items.value, index, value);
        if ListsNonEmpty(sections) {
          SetItemsKeepsListsNonEmpty(sections, id, newItems);
        }
        sections := UpdateSection(sections, id, ItemsPatch(newItems));
      }
    }

    /** `removeListItem(sectionId, itemIndex)`. */
    method RemoveItem(id: string, index: int)
      modifies this
      ensures sections == RemoveListItem(old(sections), id, index)
      ensures ListsNonEmpty(old(sections)) ==> ListsNonEmpty(sections)
    {
      var items := ItemsOf(sections, id);
      if items.Some? && |items.value| > 1 {
        var newItems := RemoveAt(items.value, index);
        if ListsNonEmpty(sections) {
          SetItemsKeepsListsNonEmpty(sections, id, newItems);
        }
        sections := UpdateSection(sections, id, ItemsPatch(newItems));
      }
    }
  }
}
