/**
 * The aggregation behind the election promise tracker (`src/components/PromiseTracker.tsx`):
 * the category list, the category filter, the counts per status and the status texts.
 * The tracker's fixed list of promises is a parameter here.
 */
module PromiseTracker {

  import opened Wrappers
  import opened Seqs

  /** The four states of a promise (`src/types/modules.ts`). */
  datatype PromiseStatus = Completed | InProgress | NotStarted | Broken

  datatype Promise = Promise(
    id: string,
    title: string,
    description: string,
    status: PromiseStatus,
    evidence: Option<string>,
    evidenceUrl: Option<string>,
    category: string)

  /** Where `x` first occurs in `values` (`indexOf`). */
  function FirstPos(values: seq<string>, x: string): (k: nat)
    requires x in values
    ensures k < |values| && values[k] == x
    ensures forall i :: 0 <= i < k ==> values[i] != x
  {
    if values[0] == x then 0 else 1 + FirstPos(values[1..], x)
  }

  /** Appending a value leaves the first place of every value already there. */
  lemma FirstPosAppend(values: seq<string>, last: string, x: string)
    requires x in values
    ensures FirstPos(values + [last], x) == FirstPos(values, x)
  {
    var k := FirstPos(values, x);
    assert (values + [last])[k] == x;
  }

  /**
   * `Array.from(new Set(values))`: each value once, in the order in which the values first
   * occur in `values`.
   */
  function Dedup(values: seq<string>): (r: seq<string>)
    ensures Distinct(r)
    ensures |r| <= |values|
    ensures forall x :: x in r <==> x in values
    ensures forall i, j :: 0 <= i < j < |r| ==> FirstPos(values, r[i]) < FirstPos(values, r[j])
    decreases |values|
  {
    if values == [] then []
    else
      var front := values[..|values| - 1];
      var last := values[|values| - 1];
      var r := Dedup(front);
      assert values == front + [last];
      DedupStep(front, last, r);
      if last in r then r else r + [last]
  }

  /** One step of `Dedup`: taking in one more value keeps all four properties of the result. */
  lemma DedupStep(front: seq<string>, last: string, r: seq<string>)
    requires Distinct(r) && forall x :: x in r <==> x in front
    requires forall i, j :: 0 <= i < j < |r| ==> FirstPos(front, r[i]) < FirstPos(front, r[j])
    ensures last in r ==> forall x :: x in r <==> x in front + [last]
    ensures last in r ==>
      forall i, j :: 0 <= i < j < |r| ==> FirstPos(front + [last], r[i]) < FirstPos(front + [last], r[j])
    ensures last !in r ==> Distinct(r + [last]) && forall x :: x in r + [last] <==> x in front + [last]
    ensures last !in r ==> var r' := r + [last];
      forall i, j :: 0 <= i < j < |r'| ==> FirstPos(front + [last], r'[i]) < FirstPos(front + [last], r'[j])
  {
    KeptFirstPos(front, last, r);
    if last !in r {
      DistinctAppend(r, last);
      NewFirstPos(front, last, r);
    }
  }

  /** Values already in the result keep their first place when one more value comes in. */
  lemma KeptFirstPos(front: seq<string>, last: string, r: seq<string>)
    requires forall x :: x in r ==> x in front
    ensures forall i :: 0 <= i < |r| ==> FirstPos(front + [last], r[i]) == FirstPos(front, r[i])
  {
    forall i | 0 <= i < |r| ensures FirstPos(front + [last], r[i]) == FirstPos(front, r[i]) {
      FirstPosAppend(front, last, r[i]);
    }
  }

  /** A value met for the first time at the end comes after every value already in the result. */
  lemma NewFirstPos(front: seq<string>, last: string, r: seq<string>)
    requires last !in front && forall x :: x in r ==> x in front
    requires forall i :: 0 <= i < |r| ==> FirstPos(front + [last], r[i]) == FirstPos(front, r[i])
    requires forall i, j :: 0 <= i < j < |r| ==> FirstPos(front, r[i]) < FirstPos(front, r[j])
    ensures var r' := r + [last];
      forall i, j :: 0 <= i < j < |r'| ==> FirstPos(front + [last], r'[i]) < FirstPos(front + [last], r'[j])
  {
    var values, r' := front + [last], r + [last];
    assert FirstPos(values, last) == |front|;
    forall i, j | 0 <= i < j < |r'| ensures FirstPos(values, r'[i]) < FirstPos(values, r'[j]) {
      assert r'[i] == r[i];
      if j < |r| {
        assert r'[j] == r[j];
      }
    }
  }

  /** The category of each promise. */
  function CategoryOf(promises: seq<Promise>): (r: seq<string>)
    ensures |r| == |promises| && forall i :: 0 <= i < |r| ==> r[i] == promises[i].category
  {
    seq(|promises|, i requires 0 <= i < |promises| => promises[i].category)
  }

  /** `categories`: every promise's category, each exactly once. */
  function Categories(promises: seq<Promise>): (r: seq<string>)
    ensures Distinct(r)
    ensures forall i :: 0 <= i < |promises| ==> promises[i].category in r
    ensures forall c :: c in r ==> exists i :: 0 <= i < |promises| && promises[i].category == c
  {
    var all := CategoryOf(promises);
    var r := Dedup(all);
    assert forall i :: 0 <= i < |promises| ==> all[i] in all;
    r
  }

  /** `filteredPromises`: all promises for `'all'`, otherwise those of the chosen category in order. */
  function FilterByCategory(promises: seq<Promise>, selected: string): (r: seq<Promise>)
    ensures selected == "all" ==> r == promises
    ensures selected != "all" ==> forall p :: p in r <==> p in promises && p.category == selected
    ensures selected != "all" ==> forall p :: multiset(r)[p] == if p.category == selected then multiset(promises)[p] else 0
    ensures IsSubsequence(r, promises)
  {
    if selected == "all" then
      FilterAll(promises, (p: Promise) => true);
      FilterIsSubsequence(promises, (p: Promise) => true);
      promises
    else
      FilterIsSubsequence(promises, (p: Promise) => p.category == selected);
      FilterMembers(promises, (p: Promise) => p.category == selected);
      FilterMultiset(promises, (p: Promise) => p.category == selected);
      Filter(promises, (p: Promise) => p.category == selected)
  }

  /** Each listed category selects at least one promise. */
  lemma ListedCategoryNonEmpty(promises: seq<Promise>, c: string)
    requires c in Categories(promises) && c != "all"
    ensures FilterByCategory(promises, c) != []
  {
    var i :| 0 <= i < |promises| && promises[i].category == c;
    assert promises[i] in promises;
  }

  /** The test `p.status === status`. */
  function WithStatus(status: PromiseStatus): Promise -> bool {
    (p: Promise) => p.status == status
  }

  datatype Stats = Stats(completed: nat, inProgress: nat, notStarted: nat, broken: nat, total: nat)

  /** `getStats()`. */
  function GetStats(promises: seq<Promise>): (r: Stats)
    ensures r.total == |promises|
    ensures r.completed == Count(promises, WithStatus(Completed))
    ensures r.inProgress == Count(promises, WithStatus(InProgress))
    ensures r.notStarted == Count(promises, WithStatus(NotStarted))
    ensures r.broken == Count(promises, WithStatus(Broken))
    ensures r.completed + r.inProgress + r.notStarted + r.broken == r.total
  {
    StatusCountsAddUp(promises);
    Stats(Count(promises, WithStatus(Completed)), Count(promises, WithStatus(InProgress)),
          Count(promises, WithStatus(NotStarted)), Count(promises, WithStatus(Broken)), |promises|)
  }

  /** Each promise is in exactly one of the four states, so the four counts add up to the total. */
  lemma {:induction false} StatusCountsAddUp(promises: seq<Promise>)
    ensures Count(promises, WithStatus(Completed)) + Count(promises, WithStatus(InProgress))
      + Count(promises, WithStatus(NotStarted)) + Count(promises, WithStatus(Broken)) == |promises|
  {
    if promises != [] {
      StatusCountsAddUp(promises[1..]);
    }
  }

  /** `getStatusText`. */
  function StatusText(status: PromiseStatus): string {
    match status
    case Completed => "Zrealizowane"
    case InProgress => "W trakcie"
    case NotStarted => "Nierozpoczęte"
    case Broken => "Niespełnione"
  }

  /** `getStatusColor`. */
  function StatusColor(status: PromiseStatus): string {
    match status
    case Completed => "bg-green-100 text-green-800"
    case InProgress => "bg-blue-100 text-blue-800"
    case NotStarted => "bg-gray-100 text-gray-800"
    case Broken => "bg-red-100 text-red-800"
  }

  /** Different states are shown with different texts and different colours. */
  lemma StatusDisplayDistinct(s: PromiseStatus, t: PromiseStatus)
    requires s != t
    ensures StatusText(s) != StatusText(t)
    ensures StatusColor(s) != StatusColor(t)
  {
  }
}
