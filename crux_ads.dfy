/**
 * populateAdverts as crux-ads.js has it: each slot receives at most one
 * advert. A priority-0 advert, chosen uniformly among the eligible ones, wins
 * whenever there is one; otherwise the weighted lottery picks among the rest.
 * The clone is tagged with the slot's data-type before it is appended.
 */
module CruxAds {
  import opened Wrappers
  import opened Adverts

  /** Math.floor(u * n). */
  function FloorIndex(u: real, n: nat): int
  {
    ScaledDraw(u, n as real).Floor
  }

  /** For a draw u in [0, 1) the index falls inside a list of length n > 0. */
  lemma FloorIndexInRange(u: real, n: nat)
    requires 0.0 <= u < 1.0 && n > 0
    ensures 0 <= FloorIndex(u, n) < n
    ensures FloorIndex(u, n) as real <= u * n as real < FloorIndex(u, n) as real + 1.0
  {
    ScaledBelow(u, n as real);
  }

  /**
   * The advert chosen for a slot with data-ad-slot `slotId` and draw u: always
   * an eligible one, and none when no advert is eligible. An index outside the
   * priority-0 list reads `undefined`, which appends nothing.
   */
  function ChooseAdvert(infos: seq<AdvertInfo>, slotId: Option<string>, u: real): (chosen: Option<AdvertInfo>)
    ensures chosen.Some? ==> chosen.value in Eligible(infos, slotId)
    ensures Eligible(infos, slotId) == [] ==> chosen == None
  {
    var eligible := Eligible(infos, slotId);
    var priorityZero := PriorityZero(eligible);
    var others := Others(eligible);
    if |priorityZero| > 0 then
      var index := FloorIndex(u, |priorityZero|);
      if 0 <= index < |priorityZero| then
        assert priorityZero[index] in priorityZero;
        Some(priorityZero[index])
      else None
    else if |others| > 0 then
      WeightedPick(others, u)
    else
      None
  }

  /**
   * For a draw in [0, 1): an advert is chosen whenever one is eligible; a
   * priority-0 advert wins whenever one is eligible, and otherwise the
   * lottery's pick has non-zero priority.
   */
  lemma ChoiceRules(infos: seq<AdvertInfo>, slotId: Option<string>, u: real)
    requires 0.0 <= u < 1.0
    ensures var chosen := ChooseAdvert(infos, slotId, u);
      && (Eligible(infos, slotId) != [] ==> chosen.Some?)
      && ((exists a :: a in Eligible(infos, slotId) && a.priority == 0) ==>
            chosen.Some? && chosen.value.priority == 0)
      && ((forall a :: a in Eligible(infos, slotId) ==> a.priority != 0) ==>
            (chosen.Some? ==> chosen.value.priority != 0))
  {
    var chosen := ChooseAdvert(infos, slotId, u);
    var eligible := Eligible(infos, slotId);
    var zero := PriorityZero(eligible);
    var others := Others(eligible);
    if |zero| > 0 {
      var index := FloorIndex(u, |zero|);
      FloorIndexInRange(u, |zero|);
      assert chosen == Some(zero[index]);
      assert zero[index] in zero && zero[0] in zero;
    } else {
      if |others| > 0 {
        WeightedPickIsFirstExceeding(others, u);
        assert chosen.Some? && chosen.value in others;
      } else if eligible != [] {
        PrioritySplit(eligible);
      }
    }
  }

  /**
   * The text setAttribute stores for a getAttribute result: the attribute's
   * value, or "null" when the slot has no data-type.
   */
  function AttributeText(value: Option<string>): string
  {
    match value
    case Some(text) => text
    case None => "null"
  }

  /**
   * cloneNode(true) followed by setAttribute("data-type", slotType): the
   * clone's data-type is the slot's data-type; every other attribute is the
   * advert's own, and no other attribute is added.
   */
  function TaggedClone(advert: Element, slotType: Option<string>): (clone: Element)
    ensures "data-type" in clone.attributes && clone.attributes["data-type"] == AttributeText(slotType)
    ensures forall name :: name in advert.attributes && name != "data-type" ==>
      name in clone.attributes && clone.attributes[name] == advert.attributes[name]
    ensures clone.attributes.Keys == advert.attributes.Keys + {"data-type"}
  {
    Element(advert.attributes["data-type" := AttributeText(slotType)])
  }

  /** What a slot gains: one tagged clone of the chosen advert, or nothing. */
  function Appended(infos: seq<AdvertInfo>, slotId: Option<string>, slotType: Option<string>, u: real): seq<Element>
  {
    match ChooseAdvert(infos, slotId, u)
    case Some(a) => [TaggedClone(a.advert, slotType)]
    case None => []
  }

  /**
   * A slot gains at most one element, a clone of an eligible advert whose
   * data-type is the slot's; for a draw in [0, 1) it gains nothing exactly
   * when no advert is eligible.
   */
  lemma AtMostOneTaggedAdvert(infos: seq<AdvertInfo>, slotId: Option<string>, slotType: Option<string>, u: real)
    ensures var added := Appended(infos, slotId, slotType, u);
      && |added| <= 1
      && (forall e :: e in added ==>
            && "data-type" in e.attributes && e.attributes["data-type"] == AttributeText(slotType)
            && exists a :: a in Eligible(infos, slotId) && e == TaggedClone(a.advert, slotType))
      && (0.0 <= u < 1.0 ==> (added == [] <==> Eligible(infos, slotId) == []))
  {
    var chosen := ChooseAdvert(infos, slotId, u);
    if 0.0 <= u < 1.0 {
      ChoiceRules(infos, slotId, u);
    }
    if chosen.Some? {
      var eligible := Eligible(infos, slotId);
      PrioritySplit(eligible);
      if |PriorityZero(eligible)| == 0 {
        assert chosen.value in Others(eligible);
      }
      assert chosen.value in eligible;
    }
  }

  /** One slot: choose, tag and append. */
  method PopulateSlot(slot: Slot, infos: seq<AdvertInfo>, u: real)
    modifies slot
    ensures slot.children == old(slot.children) + Appended(infos, slot.adSlot, slot.dataType, u)
  {
    var slotId := slot.adSlot;
    var slotType := slot.dataType;
    var eligible := Eligible(infos, slotId);
    var priorityZero := PriorityZero(eligible);
    var others := Others(eligible);

    var selectedAdvert: Option<AdvertInfo> := None;
    if |priorityZero| > 0 {
      var index := FloorIndex(u, |priorityZero|);
      if 0 <= index < |priorityZero| {
        selectedAdvert := Some(priorityZero[index]);
      }
    } else if |others| > 0 {
      selectedAdvert := WeightedRandomSelect(others, u);
    }
    assert selectedAdvert == ChooseAdvert(infos, slotId, u);

    if selectedAdvert.Some? {
      var clonedAdvert := TaggedClone(selectedAdvert.value.advert, slotType);
      slot.AppendChild(clonedAdvert);
    }
  }

  /**
   * populateAdverts: nothing changes when the ads gate is closed; otherwise
   * slot i gains at most one advert, chosen with the draw draws[i] (the value
   * of Math.random() for that slot).
   */
  method PopulateAdverts(path: string, companies: Option<nat>, slots: seq<Slot>,
                         infos: seq<AdvertInfo>, draws: seq<real>)
    requires |draws| == |slots|
    requires forall i, j :: 0 <= i < j < |slots| ==> slots[i] != slots[j]
    modifies set i | 0 <= i < |slots| :: slots[i]
    ensures !ShouldShowAds(path, companies) ==>
      forall i :: 0 <= i < |slots| ==> slots[i].children == old(slots[i].children)
    ensures ShouldShowAds(path, companies) ==>
      forall i :: 0 <= i < |slots| ==>
        slots[i].children == old(slots[i].children) + Appended(infos, slots[i].adSlot, slots[i].dataType, draws[i])
  {
    if !ShouldShowAds(path, companies) {
      return;
    }
    ghost var gains := seq(|slots|, i requires 0 <= i < |slots| =>
      Appended(infos, slots[i].adSlot, slots[i].dataType, draws[i]));
    PopulateSlots(slots, infos, draws, gains);
  }

  /**
   * The slotElements.forEach pass of populateAdverts, slot by slot: slot i
   * gains gains[i], its own tagged choice.
   */
  method PopulateSlots(slots: seq<Slot>, infos: seq<AdvertInfo>, draws: seq<real>, ghost gains: seq<seq<Element>>)
    requires |draws| == |slots| == |gains|
    requires forall i, j :: 0 <= i < j < |slots| ==> slots[i] != slots[j]
    requires forall i {:trigger gains[i]} :: 0 <= i < |slots| ==> gains[i] == Appended(infos, slots[i].adSlot, slots[i].dataType, draws[i])
    modifies set i | 0 <= i < |slots| :: slots[i]
    ensures forall i :: 0 <= i < |slots| ==> slots[i].children == old(slots[i].children) + gains[i]
  {
    for i := 0 to |slots|
      invariant forall k :: 0 <= k < i ==> slots[k].children == old(slots[k].children) + gains[k]
      invariant forall k :: i <= k < |slots| ==> slots[k].children == old(slots[k].children)
    {
      PopulateSlot(slots[i], infos, draws[i]);
    }
  }
}
