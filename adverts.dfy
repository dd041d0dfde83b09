/**
 * The helpers that crux.js and crux-ads.js share word for word: the gate that
 * suppresses ads on single-company post pages, the weighted lottery over
 * adverts, and the filters that find the adverts eligible for a slot and split
 * them by priority. Slots are the page's `.advert-slot` elements, whose
 * children the two populate policies append to.
 */
module Adverts {
  import opened Wrappers

  // ---------------------------------------------------------------------------
  // shouldShowAds
  // ---------------------------------------------------------------------------

  /** The regular expression /\/posts\/[^\/]+/ matches at position i. */
  predicate PostPatternAt(path: string, i: nat)
  {
    i + 8 <= |path| && path[i..i + 7] == "/posts/" && path[i + 7] != '/'
  }

  /** The regular expression matches somewhere in the path (RegExp.test). */
  ghost predicate PostPattern(path: string)
  {
    exists i: nat :: PostPatternAt(path, i)
  }

  /** The scan behind RegExp.test: is there a match at `from` or later? */
  function MatchFrom(path: string, from: nat): (r: bool)
    ensures r <==> exists i: nat :: from <= i && PostPatternAt(path, i)
    decreases |path| - from
  {
    if |path| < from + 8 then false
    else PostPatternAt(path, from) || MatchFrom(path, from + 1)
  }

  /** The page path has the form /posts/xxx. */
  function IsPostPage(path: string): (r: bool)
    ensures r <==> PostPattern(path)
  {
    MatchFrom(path, 0)
  }

  /**
   * Ads are suppressed only on a post page whose companies list exists and has
   * exactly one child. `companies` is the child count of the
   * `.post-content_companies-list` element, or None when there is none.
   */
  function ShouldShowAds(path: string, companies: Option<nat>): (show: bool)
    ensures !show <==> PostPattern(path) && companies == Some(1)
  {
    if !IsPostPage(path) then true
    else match companies
      case None => true
      case Some(childrenCount) => childrenCount != 1
  }

  // ---------------------------------------------------------------------------
  // Adverts and slots
  // ---------------------------------------------------------------------------

  /** A DOM element, seen through its attributes; cloning copies the value. */
  datatype Element = Element(attributes: map<string, string>)

  /**
   * An `.adverts .advert` element with its parsed `data-priority` and the slot
   * ids scraped from its campaign page ([] when the fetch or parse failed).
   */
  datatype AdvertInfo = AdvertInfo(advert: Element, priority: int, slotIds: seq<string>)

  /** An `.advert-slot` element; the scripts only ever append to its children. */
  class Slot {
    const adSlot: Option<string>    // data-ad-slot
    const dataType: Option<string>  // data-type
    var children: seq<Element>

    constructor (adSlot: Option<string>, dataType: Option<string>, children: seq<Element>)
      ensures this.adSlot == adSlot && this.dataType == dataType && this.children == children
    {
      this.adSlot := adSlot;
      this.dataType := dataType;
      this.children := children;
    }

    /** Node.appendChild: the new child goes last, the others stay as they were. */
    method AppendChild(e: Element)
      modifies this
      ensures children == old(children) + [e]
    {
      children := children + [e];
    }
  }

  /** The advert elements of a list of infos, in order (their clones). */
  function Elements(infos: seq<AdvertInfo>): seq<Element>
  {
    seq(|infos|, k requires 0 <= k < |infos| => infos[k].advert)
  }

  // ---------------------------------------------------------------------------
  // Filters: eligibility and the priority split
  // ---------------------------------------------------------------------------

  /** Array.prototype.filter: keeps the elements satisfying p, in their order. */
  function Filter<T>(s: seq<T>, p: T -> bool): (r: seq<T>)
    ensures |r| <= |s|
  {
    if s == [] then [] else (if p(s[0]) then [s[0]] else []) + Filter(s[1..], p)
  }

  /** The filter keeps exactly the elements that satisfy p. */
  lemma {:induction false} FilterMembers<T>(s: seq<T>, p: T -> bool, x: T)
    ensures x in Filter(s, p) <==> x in s && p(x)
  {
    if s != [] {
      FilterMembers(s[1..], p, x);
      assert s == [s[0]] + s[1..];
    }
  }

  /** The filter keeps exactly the elements that satisfy p, for every element at once. */
  lemma FilterKeeps<T(!new)>(s: seq<T>, p: T -> bool)
    ensures forall x :: x in Filter(s, p) <==> x in s && p(x)
  {
    forall x
      ensures x in Filter(s, p) <==> x in s && p(x)
    {
      FilterMembers(s, p, x);
    }
  }

  /** Filtering a concatenation filters each part: the kept order is the input's. */
  lemma {:induction false} FilterAppend<T>(a: seq<T>, b: seq<T>, p: T -> bool)
    ensures Filter(a + b, p) == Filter(a, p) + Filter(b, p)
  {
    if a == [] {
      assert a + b == b;
    } else {
      assert (a + b)[0] == a[0];
      assert (a + b)[1..] == a[1..] + b;
      FilterAppend(a[1..], b, p);
      var head := if p(a[0]) then [a[0]] else [];
      calc {
        Filter(a + b, p);
        head + Filter(a[1..] + b, p);
        head + (Filter(a[1..], p) + Filter(b, p));
        (head + Filter(a[1..], p)) + Filter(b, p);
        Filter(a, p) + Filter(b, p);
      }
    }
  }

  /** Two complementary filters split the input: together they hold every element once. */
  lemma {:induction false} FilterPartition<T>(s: seq<T>, p: T -> bool, q: T -> bool)
    requires forall x :: q(x) <==> !p(x)
    ensures multiset(Filter(s, p)) + multiset(Filter(s, q)) == multiset(s)
    ensures |Filter(s, p)| + |Filter(s, q)| == |s|
  {
    if s != [] {
      FilterPartition(s[1..], p, q);
      assert s == [s[0]] + s[1..];
    }
  }

  predicate TargetsSlot(info: AdvertInfo, slotId: Option<string>)
  {
    slotId.Some? && slotId.value in info.slotIds
  }

  predicate IsPriorityZero(info: AdvertInfo) { info.priority == 0 }

  predicate IsWeighted(info: AdvertInfo) { info.priority != 0 }

  /**
   * advertInfos.filter(({ slotIds }) => slotIds.includes(slotId)): an advert
   * is eligible exactly when its scraped slot ids include the slot's
   * data-ad-slot; so an advert whose fetch failed (slot ids []) and any slot
   * without data-ad-slot have none.
   */
  function Eligible(infos: seq<AdvertInfo>, slotId: Option<string>): (eligible: seq<AdvertInfo>)
    ensures forall a {:trigger a in eligible} :: a in eligible <==> a in infos && slotId.Some? && slotId.value in a.slotIds
  {
    var targets := info => TargetsSlot(info, slotId);
    FilterKeeps(infos, targets);
    Filter(infos, targets)
  }

  /** eligibleAdverts.filter(({ priority }) => priority === 0) */
  function PriorityZero(eligible: seq<AdvertInfo>): (zero: seq<AdvertInfo>)
    ensures forall a {:trigger a in zero} :: a in zero <==> a in eligible && a.priority == 0
  {
    FilterKeeps(eligible, IsPriorityZero);
    Filter(eligible, IsPriorityZero)
  }

  /** eligibleAdverts.filter(({ priority }) => priority !== 0) */
  function Others(eligible: seq<AdvertInfo>): (others: seq<AdvertInfo>)
    ensures forall a {:trigger a in others} :: a in others <==> a in eligible && a.priority != 0
  {
    FilterKeeps(eligible, IsWeighted);
    Filter(eligible, IsWeighted)
  }

  /**
   * Eligibility distributes over the advert list, so the eligible adverts keep
   * their original order.
   */
  lemma EligibleKeepsOrder(infos: seq<AdvertInfo>, more: seq<AdvertInfo>, slotId: Option<string>)
    ensures Eligible(infos + more, slotId) == Eligible(infos, slotId) + Eligible(more, slotId)
  {
    FilterAppend(infos, more, info => TargetsSlot(info, slotId));
  }

  /**
   * The priority-0 list and the other list are disjoint, and together they are
   * the eligible list: every eligible advert is in exactly one of them, once.
   */
  lemma PrioritySplit(eligible: seq<AdvertInfo>)
    ensures forall a :: !(a in PriorityZero(eligible) && a in Others(eligible))
    ensures multiset(PriorityZero(eligible)) + multiset(Others(eligible)) == multiset(eligible)
    ensures |PriorityZero(eligible)| + |Others(eligible)| == |eligible|
  {
    FilterPartition(eligible, IsPriorityZero, IsWeighted);
  }

  /**
   * Both halves of the split keep the eligible list's order: splitting a
   * concatenation splits each part and concatenates the results.
   */
  lemma PrioritySplitKeepsOrder(front: seq<AdvertInfo>, back: seq<AdvertInfo>)
    ensures PriorityZero(front + back) == PriorityZero(front) + PriorityZero(back)
    ensures Others(front + back) == Others(front) + Others(back)
  {
    FilterAppend(front, back, IsPriorityZero);
    FilterAppend(front, back, IsWeighted);
  }

  // ---------------------------------------------------------------------------
  // weightedRandomSelect
  // ---------------------------------------------------------------------------

  /** Math.pow(2, -priority), exactly. */
  function Weight(priority: int): (w: real)
    ensures w > 0.0
    decreases if priority < 0 then -priority else priority
  {
    if priority == 0 then 1.0
    else if priority > 0 then Weight(priority - 1) / 2.0
    else 2.0 * Weight(priority + 1)
  }

  /** Each step up in priority number halves the weight. */
  lemma WeightHalves(priority: int)
    ensures Weight(priority + 1) * 2.0 == Weight(priority)
  {
  }

  /** A smaller priority number gives a strictly larger weight. */
  lemma {:induction false} WeightDecreasing(p: int, q: int)
    requires p < q
    ensures Weight(q) < Weight(p)
    decreases q - p
  {
    WeightHalves(q - 1);
    if p < q - 1 {
      WeightDecreasing(p, q - 1);
    }
  }

  /** items.map((item) => Math.pow(2, -item.priority)) */
  function Weights(items: seq<AdvertInfo>): (ws: seq<real>)
    ensures forall k :: 0 <= k < |ws| ==> ws[k] > 0.0
  {
    seq(|items|, k requires 0 <= k < |items| => Weight(items[k].priority))
  }

  /** weights.reduce((total, weight) => total + weight, 0) */
  function Sum(ws: seq<real>): real
  {
    if ws == [] then 0.0 else ws[0] + Sum(ws[1..])
  }

  /** Adding one more weight at the end adds it to the running total. */
  lemma {:induction false} SumSnoc(ws: seq<real>, i: nat)
    requires i < |ws|
    ensures RunningTotal(ws, i) == Sum(ws[..i]) + ws[i]
  {
    if i == 0 {
      assert ws[..1][1..] == [];
    } else {
      assert ws[..i + 1][1..] == ws[1..][..i];
      assert ws[..i][1..] == ws[1..][..i - 1];
      SumSnoc(ws[1..], i - 1);
      calc {
        RunningTotal(ws, i);
        ws[0] + Sum(ws[1..][..i]);
        ws[0] + Sum(ws[1..][..i - 1]) + ws[i];
        Sum(ws[..i]) + ws[i];
      }
    }
  }

  /** The total of positive weights is positive. */
  lemma {:induction false} SumPositive(ws: seq<real>)
    requires |ws| > 0
    requires forall k :: 0 <= k < |ws| ==> ws[k] > 0.0
    ensures Sum(ws) > 0.0
  {
    if |ws| > 1 {
      SumPositive(ws[1..]);
    }
  }

  /** ws[0] + ... + ws[j]: the running total once item j has been passed. */
  function RunningTotal(ws: seq<real>, j: nat): real
    requires j < |ws|
  {
    Sum(ws[..j + 1])
  }

  /**
   * The first index i, from `from` on, at which the draw r falls below the
   * running total ws[0] + ... + ws[i]; None when r reaches every total.
   */
  function FirstExceedingFrom(ws: seq<real>, r: real, from: nat): (k: Option<nat>)
    requires from <= |ws|
    ensures k.Some? ==> from <= k.value < |ws| && r < RunningTotal(ws, k.value)
    ensures forall j: nat :: from <= j < (if k.Some? then k.value else |ws|) ==> RunningTotal(ws, j) <= r
    decreases |ws| - from
  {
    if from == |ws| then None
    else if r < RunningTotal(ws, from) then Some(from)
    else FirstExceedingFrom(ws, r, from + 1)
  }

  function FirstExceeding(ws: seq<real>, r: real): Option<nat>
  {
    FirstExceedingFrom(ws, r, 0)
  }

  /** A draw below the total always finds an index: the `null` fallback is unreachable. */
  lemma FirstExceedingFound(ws: seq<real>, r: real)
    requires |ws| > 0 && r < Sum(ws)
    ensures FirstExceeding(ws, r).Some?
  {
    assert RunningTotal(ws, |ws| - 1) == Sum(ws) by {
      assert ws[..|ws| - 1 + 1] == ws;
    }
  }

  /**
   * The item weightedRandomSelect returns for the uniform draw u (the value of
   * Math.random()).
   */
  function WeightedPick(items: seq<AdvertInfo>, u: real): (pick: Option<AdvertInfo>)
    ensures items == [] ==> pick == None
    ensures pick.Some? ==> pick.value in items
  {
    var ws := Weights(items);
    match FirstExceeding(ws, ScaledDraw(u, Sum(ws)))
    case Some(i) => Some(items[i])
    case None => None
  }

  /**
   * For a draw u in [0, 1) and a non-empty list, the pick is the item at the
   * first index whose running weight total exceeds u * totalWeight.
   */
  lemma WeightedPickIsFirstExceeding(items: seq<AdvertInfo>, u: real)
    requires |items| > 0 && 0.0 <= u < 1.0
    ensures var ws := Weights(items);
      exists i: nat :: i < |items| && WeightedPick(items, u) == Some(items[i])
        && ScaledDraw(u, Sum(ws)) < RunningTotal(ws, i)
        && forall j: nat :: j < i ==> RunningTotal(ws, j) <= ScaledDraw(u, Sum(ws))
  {
    var ws := Weights(items);
    SumPositive(ws);
    ScaledBelow(u, Sum(ws));
    FirstExceedingFound(ws, ScaledDraw(u, Sum(ws)));
  }

  /** Math.random() * totalWeight: the uniform draw u scaled to the total weight. */
  function ScaledDraw(u: real, total: real): real
  {
    u * total
  }

  /** A draw in [0, 1) scaled by a positive total stays in [0, total). */
  lemma ScaledBelow(u: real, total: real)
    requires 0.0 <= u < 1.0 && total > 0.0
    ensures 0.0 <= ScaledDraw(u, total) < total
  {
    assert total - u * total == (1.0 - u) * total;
  }

  /**
   * weightedRandomSelect from both scripts: a linear scan that subtracts each
   * weight from the scaled draw until the draw falls below a weight.
   */
  method WeightedRandomSelect(items: seq<AdvertInfo>, u: real) returns (pick: Option<AdvertInfo>)
    ensures pick == WeightedPick(items, u)
  {
    var weights := Weights(items);
    var totalWeight := Sum(weights);
    var random := ScaledDraw(u, totalWeight);
    ghost var r := random;
    var i := 0;
    while i < |items|
      invariant 0 <= i <= |items|
      invariant random == r - Sum(weights[..i])
      invariant FirstExceeding(weights, r) == FirstExceedingFrom(weights, r, i)
    {
      SumSnoc(weights, i);
      if random < weights[i] {
        return Some(items[i]);
      }
      random := random - weights[i];
      i := i + 1;
    }
    return None;
  }
}
