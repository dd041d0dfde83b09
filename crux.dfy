/**
 * populateAdverts as crux.js has it: every slot receives all of its eligible
 * priority-0 adverts, in order, followed by at most one advert drawn from the
 * weighted lottery over the remaining eligible adverts.
 */
module Crux {
  import opened Wrappers
  import opened Adverts

  /**
   * The adverts selected for a slot with data-ad-slot `slotId` when the
   * lottery draw is u: the priority-0 eligible adverts, in order, then at most
   * one more, the weighted pick among the others.
   */
  function SelectAdverts(infos: seq<AdvertInfo>, slotId: Option<string>, u: real): (selected: seq<AdvertInfo>)
    ensures var zero := PriorityZero(Eligible(infos, slotId));
      |zero| <= |selected| <= |zero| + 1 && selected[..|zero|] == zero
  {
    var eligible := Eligible(infos, slotId);
    var others := Others(eligible);
    var pick := if |others| > 0 then WeightedPick(others, u) else None;
    PriorityZero(eligible) + (if pick.Some? then [pick.value] else [])
  }

  /**
   * Every selected advert is eligible for the slot, and the one advert that
   * may follow the priority-0 ones has non-zero priority.
   */
  lemma SelectionShape(infos: seq<AdvertInfo>, slotId: Option<string>, u: real)
    ensures var selected := SelectAdverts(infos, slotId, u);
      var zero := PriorityZero(Eligible(infos, slotId));
      && (forall a :: a in selected ==> a in Eligible(infos, slotId))
      && (forall k :: |zero| <= k < |selected| ==> selected[k].priority != 0)
  {
    PrioritySplit(Eligible(infos, slotId));
  }

  /**
   * Every priority-0 advert eligible for the slot is selected, and for a draw
   * in [0, 1) exactly one lottery advert is added whenever one is eligible.
   */
  lemma SelectionComplete(infos: seq<AdvertInfo>, slotId: Option<string>, u: real)
    requires 0.0 <= u < 1.0
    ensures forall a :: a in Eligible(infos, slotId) && a.priority == 0 ==> a in SelectAdverts(infos, slotId, u)
    ensures var eligible := Eligible(infos, slotId);
      |SelectAdverts(infos, slotId, u)| == |PriorityZero(eligible)| + (if |Others(eligible)| > 0 then 1 else 0)
  {
    var eligible := Eligible(infos, slotId);
    PrioritySplit(eligible);
    if |Others(eligible)| > 0 {
      WeightedPickIsFirstExceeding(Others(eligible), u);
    }
  }

  /** One slot: compute the selection and append a clone of each selected advert. */
  method PopulateSlot(slot: Slot, infos: seq<AdvertInfo>, u: real)
    modifies slot
    ensures slot.children == old(slot.children) + Elements(SelectAdverts(infos, slot.adSlot, u))
  {
    var eligible := Eligible(infos, slot.adSlot);
    var priorityZero := PriorityZero(eligible);
    var others := Others(eligible);
    var selected := priorityZero;
    if |others| > 0 {
      var pick := WeightedRandomSelect(others, u);
      if pick.Some? {
        selected := selected + [pick.value];
      }
    }
    assert selected == SelectAdverts(infos, slot.adSlot, u);
    AppendClones(slot, selected);
  }

  /** The selectedAdverts.forEach pass: a clone of each advert, in order. */
  method AppendClones(slot: Slot, selected: seq<AdvertInfo>)
    modifies slot
    ensures slot.children == old(slot.children) + Elements(selected)
  {
    for k := 0 to |selected|
      invariant slot.children == old(slot.children) + Elements(selected[..k])
    {
      assert selected[..k + 1] == selected[..k] + [selected[k]];
      slot.AppendChild(selected[k].advert);
    }
    assert selected[..|selected|] == selected;
  }

  /**
   * populateAdverts: nothing changes when the ads gate is closed; otherwise
   * each slot, in document order, gets its selection appended, drawing
   * draws[i] for slot i.
   */
  method PopulateAdverts(path: string, companies: Option<nat>, slots: seq<Slot>,
                         infos: seq<AdvertInfo>, draws: seq<real>)
    requires |draws| == |slots|
    requires forall i, j :: 0 <= i < j < |slots| ==> slots[i] != slots[j]
    modifies set i | 0 <= i < |slots| :: slots[i]
    ensures !ShouldShowAds(path, companies) ==>
      forall i :: 0 <= i < |slots| ==> slots[i].children == old(slots[i].children)
    ensures ShouldShowAds(path, companies) ==>
      forall i :: 0 <= i < |slots| ==>
        slots[i].children == old(slots[i].children) + Elements(SelectAdverts(infos, slots[i].adSlot, draws[i]))
  {
    if !ShouldShowAds(path, companies) {
      return;
    }
    PopulateSlots(slots, infos, draws);
  }

  /** The slotElements.forEach pass of populateAdverts, slot by slot. */
  method PopulateSlots(slots: seq<Slot>, infos: seq<AdvertInfo>, draws: seq<real>)
    requires |draws| == |slots|
    requires forall i, j :: 0 <= i < j < |slots| ==> slots[i] != slots[j]
    modifies set i | 0 <= i < |slots| :: slots[i]
    ensures forall i :: 0 <= i < |slots| ==>
      slots[i].children == old(slots[i].children) + Elements(SelectAdverts(infos, slots[i].adSlot, draws[i]))
  {
    for i := 0 to |slots|
      invariant forall k :: 0 <= k < i ==>
        slots[k].children == old(slots[k].children) + Elements(SelectAdverts(infos, slots[k].adSlot, draws[k]))
      invariant forall k :: i <= k < |slots| ==> slots[k].children == old(slots[k].children)
    {
      PopulateSlot(slots[i], infos, draws[i]);
    }
  }
}
