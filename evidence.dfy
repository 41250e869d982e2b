/**
 * Evidence gating (ui/app.js lines 47-49) and the timeline gate
 * (lines 133-141): which registry items the current clearance level opens.
 */
module Evidence {
  import opened Wrappers

  /** One entry of the registry's `items` list; `unlocksAt` is `None` when the field is missing. */
  datatype Item = Item(id: string, title: string, path: string, unlocksAt: Option<int>)

  /** The item's threshold, `unlocks_at ?? 0`. */
  function Threshold(it: Item): int {
    it.unlocksAt.GetOr(0)
  }

  /** The rule both filters of `evidenceList` test. */
  predicate IsUnlocked(it: Item, progress: int) {
    Threshold(it) <= progress
  }

  /** The `visible` list: the items whose threshold the level reaches, in registry order. */
  function Visible(items: seq<Item>, progress: int): (r: seq<Item>)
    ensures |r| <= |items|
    ensures forall x :: x in r <==> x in items && IsUnlocked(x, progress)
  {
    if items == [] then []
    else if IsUnlocked(items[0], progress) then [items[0]] + Visible(items[1..], progress)
    else Visible(items[1..], progress)
  }

  /** The `locked` list: the items whose threshold is above the level, in registry order. */
  function Locked(items: seq<Item>, progress: int): (r: seq<Item>)
    ensures |r| <= |items|
    ensures forall x :: x in r <==> x in items && !IsUnlocked(x, progress)
  {
    if items == [] then []
    else if !IsUnlocked(items[0], progress) then [items[0]] + Locked(items[1..], progress)
    else Locked(items[1..], progress)
  }

  /** `s` is an order-preserving merge of `a` and `b`: each element of `s` is taken from the front of one of them. */
  predicate IsInterleaving<T(==)>(s: seq<T>, a: seq<T>, b: seq<T>)
    decreases |s|
  {
    if s == [] then a == [] && b == []
    else
      (a != [] && a[0] == s[0] && IsInterleaving(s[1..], a[1..], b))
      || (b != [] && b[0] == s[0] && IsInterleaving(s[1..], a, b[1..]))
  }

  /** `a` can be obtained from `b` by deleting elements. */
  predicate IsSubsequence<T(==)>(a: seq<T>, b: seq<T>)
    decreases |b|
  {
    a == [] || (b != [] && ((a[0] == b[0] && IsSubsequence(a[1..], b[1..])) || IsSubsequence(a, b[1..])))
  }

  /**
   * The split is a total partition that keeps order: the registry is a merge
   * of the two lists, so every item lands in exactly one of them (counted
   * with multiplicity) and each list keeps the registry's relative order.
   */
  lemma {:induction false} PartitionIsInterleaving(items: seq<Item>, progress: int)
    ensures IsInterleaving(items, Visible(items, progress), Locked(items, progress))
    ensures multiset(Visible(items, progress)) + multiset(Locked(items, progress)) == multiset(items)
  {
    if items != [] {
      var x, rest := items[0], items[1..];
      PartitionIsInterleaving(rest, progress);
      var v, l := Visible(rest, progress), Locked(rest, progress);
      assert items == [x] + rest;
      if IsUnlocked(x, progress) {
        assert Visible(items, progress) == [x] + v && Locked(items, progress) == l;
        assert ([x] + v)[1..] == v;
      } else {
        assert Visible(items, progress) == v && Locked(items, progress) == [x] + l;
        assert ([x] + l)[1..] == l;
      }
    }
  }

  lemma {:induction false} SubsequenceOfTail<T>(a: seq<T>, x: T, b: seq<T>)
    requires IsSubsequence(a, b)
    ensures IsSubsequence(a, [x] + b)
  {
    assert ([x] + b)[1..] == b;
  }

  /**
   * Raising the level never hides an item: every item visible at `p` is
   * still visible at any `q >= p`, and in the same relative order.
   */
  lemma {:induction false} VisibleMonotone(items: seq<Item>, p: int, q: int)
    requires p <= q
    ensures IsSubsequence(Visible(items, p), Visible(items, q))
    ensures forall x :: x in Visible(items, p) ==> x in Visible(items, q)
  {
    if items != [] {
      VisibleMonotone(items[1..], p, q);
      var vp, vq := Visible(items[1..], p), Visible(items[1..], q);
      if IsUnlocked(items[0], p) {
        assert ([items[0]] + vp)[1..] == vp;
      } else if IsUnlocked(items[0], q) {
        SubsequenceOfTail(vp, items[0], vq);
      }
    }
  }

  /** Dually, raising the level only ever removes items from the locked list. */
  lemma {:induction false} LockedAntitone(items: seq<Item>, p: int, q: int)
    requires p <= q
    ensures IsSubsequence(Locked(items, q), Locked(items, p))
  {
    if items != [] {
      LockedAntitone(items[1..], p, q);
      var lp, lq := Locked(items[1..], p), Locked(items[1..], q);
      if !IsUnlocked(items[0], q) {
        assert ([items[0]] + lq)[1..] == lq;
      } else if !IsUnlocked(items[0], p) {
        SubsequenceOfTail(lq, items[0], lp);
      }
    }
  }

  /** The id of the gated timeline document. */
  const TimelineId := "T-401"

  /** The index `items.find(it => it.id === id)` stops at. */
  function FindIndex(items: seq<Item>, id: string): (r: Option<nat>)
    ensures r.Some? ==> r.value < |items| && items[r.value].id == id
    ensures r.Some? ==> forall j :: 0 <= j < r.value ==> items[j].id != id
    ensures r.None? ==> forall j :: 0 <= j < |items| ==> items[j].id != id
  {
    if items == [] then None
    else if items[0].id == id then Some(0)
    else match FindIndex(items[1..], id)
      case None => None
      case Some(k) => Some(k + 1)
  }

  /**
   * JavaScript's `item.unlocks_at > p`, taken without the `?? 0` default: a
   * missing threshold compares as false, so it never blocks. A JSON `null`
   * threshold would compare as 0 instead; `None` stands for both, and the
   * two agree at every non-negative level, the only levels the store yields.
   */
  predicate Exceeds(u: Option<int>, p: int) {
    u.Some? && u.value > p
  }

  /** Position `k` holds the first item with the timeline's id. */
  predicate IsFirstTimeline(items: seq<Item>, k: int) {
    0 <= k < |items| && items[k].id == TimelineId
    && forall j :: 0 <= j < k ==> items[j].id != TimelineId
  }

  /**
   * The timeline gate: the path of the document to open, or `None` when the
   * timeline is "not available at your current clearance". It is denied
   * exactly when no item has the timeline's id or the first one has a
   * threshold above the level; otherwise that first item's path is opened.
   */
  function TimelineGate(items: seq<Item>, p: int): (r: Option<string>)
    ensures r.None? <==>
      (forall j :: 0 <= j < |items| ==> items[j].id != TimelineId)
      || (exists k :: IsFirstTimeline(items, k) && Exceeds(items[k].unlocksAt, p))
    ensures r.Some? ==>
      exists k :: IsFirstTimeline(items, k) && !Exceeds(items[k].unlocksAt, p) && r.value == items[k].path
  {
    match FindIndex(items, TimelineId)
    case None => None
    case Some(k) =>
      assert IsFirstTimeline(items, k);
      assert forall k' :: IsFirstTimeline(items, k') ==> k' == k;
      if Exceeds(items[k].unlocksAt, p) then None else Some(items[k].path)
  }

  /**
   * At any reachable level (never negative) an opened timeline is the
   * document of a visible item.
   */
  lemma TimelineGrantedIsVisible(items: seq<Item>, p: nat)
    requires TimelineGate(items, p).Some?
    ensures exists it :: it in Visible(items, p) && it.id == TimelineId && it.path == TimelineGate(items, p).value
  {
    var k := FindIndex(items, TimelineId).value;
    assert items[k] in items;
    assert items[k] in Visible(items, p);
  }

  /**
   * Conversely, at any reachable level the timeline opens whenever the
   * first item with the timeline's id is in the visible list.
   */
  lemma TimelineFirstVisibleIsGranted(items: seq<Item>, p: nat, k: nat)
    requires IsFirstTimeline(items, k) && items[k] in Visible(items, p)
    ensures TimelineGate(items, p) == Some(items[k].path)
  {
    assert IsUnlocked(items[k], p);
  }
}
