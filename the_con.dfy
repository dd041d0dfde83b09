/**
 * The content-release schedule of the member dashboard (getMemberData in
 * the-con.js) and the watch-milestone rounding of its video tracker. Times are
 * integer milliseconds since the epoch; `now` stands for new Date().
 */
module TheCon {
  import opened Wrappers

  const DAY_MS: int := 1000 * 3600 * 24
  const WEEK_MS: int := 7 * 24 * 60 * 60 * 1000

  // ---------------------------------------------------------------------------
  // Arithmetic
  // ---------------------------------------------------------------------------

  /**
   * Math.floor((now - signUp) / WEEK_MS) + 1: the membership week, counted
   * from 1. (Dafny's `/` on int floors when the divisor is positive.)
   */
  function MembershipWeeks(signUp: int, now: int): (weeks: int)
    ensures (weeks - 1) * WEEK_MS <= now - signUp < weeks * WEEK_MS
    ensures now >= signUp ==> weeks >= 1
  {
    (now - signUp) / WEEK_MS + 1
  }

  /** Thirteen days after sign-up a member is in week 2. */
  lemma ThirteenDaysIsWeekTwo(signUp: int)
    ensures MembershipWeeks(signUp, signUp + 13 * DAY_MS) == 2
  {
  }

  /** Math.ceil(a / m) for a positive divisor m. */
  function CeilDiv(a: int, m: int): (q: int)
    requires m > 0
    ensures (q - 1) * m < a <= q * m
  {
    (a + m - 1) / m
  }

  /**
   * The release date of a card with data-post-release `release`:
   * (release - 1) weeks after sign-up, the first instant of membership week
   * `release`.
   */
  function ReleaseDate(signUp: int, release: int): (date: int)
    ensures MembershipWeeks(signUp, date) == release
    ensures MembershipWeeks(signUp, date - 1) == release - 1
  {
    signUp + (release - 1) * 7 * DAY_MS
  }

  // ---------------------------------------------------------------------------
  // Cards
  // ---------------------------------------------------------------------------

  /** The countdown of a locked card: "Available in N weeks" or "Available in N days". */
  datatype Countdown = InWeeks(weeks: int) | InDays(days: int) | InNaNDays

  /** The text of a card's `.release-tag_text` element. */
  datatype TagText = Markup(text: string) | ComingSoon | AvailableIn(countdown: Countdown)

  /**
   * A `.postcard` (or `.post`) element: its parsed data-post-release (None
   * when parseInt gives NaN), its data-post-status, whether it carries
   * data-post-unlocked="true" or data-post-locked="true", whether its release
   * tag is hidden, and the tag's text. The tag whose `hidden` attribute
   * `tagHidden` records is the card's `.release-tag_wrapper` in the
   * `.postcard` pass and its `.release-tag` in the `.post` pass.
   */
  datatype Card = Card(release: Option<int>, status: Option<string>,
                       unlocked: bool, locked: bool, tagHidden: bool, tagText: TagText)

  /** What getMemberData decides for one card. */
  datatype Outcome = ShowComingSoon | Unlock | Lock(countdown: Countdown)

  /**
   * The label of a locked card whose release date is `remaining` ms away:
   * whole weeks, rounded up, beyond 7 days; whole days, rounded up, otherwise.
   */
  function LockedCountdown(remaining: int): (c: Countdown)
    ensures remaining > 7 * DAY_MS ==>
      c.InWeeks? && c.weeks >= 2 && (c.weeks - 1) * WEEK_MS < remaining <= c.weeks * WEEK_MS
    ensures remaining <= 7 * DAY_MS ==>
      c.InDays? && c.days <= 7 && (c.days - 1) * DAY_MS < remaining <= c.days * DAY_MS
  {
    if remaining > 7 * DAY_MS then InWeeks(CeilDiv(remaining, WEEK_MS))
    else InDays(CeilDiv(remaining, DAY_MS))
  }

  /**
   * The decision for a card, as the-con.js writes it: "Coming soon" exactly
   * for a card that is not available; an available card with a numeric
   * data-post-release unlocks exactly from one week before its release date;
   * one whose data-post-release does not parse stays locked.
   */
  function Decide(status: Option<string>, release: Option<int>, signUp: int, now: int): (outcome: Outcome)
    ensures outcome == ShowComingSoon <==> status != Some("available")
    ensures status == Some("available") && release.Some? ==>
      (outcome == Unlock <==> now >= ReleaseDate(signUp, release.value) - WEEK_MS)
    ensures status == Some("available") && release.None? ==> outcome == Lock(InNaNDays)
  {
    if status != Some("available") then ShowComingSoon
    else match release
      // NaN - 1 compares false, and the countdown reads "Available in NaN days"
      case None => Lock(InNaNDays)
      case Some(n) =>
        UnlocksAWeekEarly(signUp, now, n);
        if MembershipWeeks(signUp, now) >= n - 1 then Unlock
        else Lock(LockedCountdown(ReleaseDate(signUp, n) - now))
  }

  /** The DOM changes one outcome makes to a card. */
  function Apply(card: Card, outcome: Outcome): Card
  {
    match outcome
    case ShowComingSoon => card.(tagHidden := false, tagText := ComingSoon)
    case Unlock => card.(unlocked := true, tagHidden := true)
    case Lock(countdown) => card.(locked := true, tagHidden := false, tagText := AvailableIn(countdown))
  }

  /**
   * One card of the `.postcard` pass. A card that is not "available" shows
   * "Coming soon" and gains neither attribute; an available card gains exactly
   * one of data-post-unlocked (tag hidden) and data-post-locked (tag shown),
   * the first exactly when the membership week reaches data-post-release - 1.
   */
  function Schedule(card: Card, signUp: int, now: int): (after: Card)
    ensures after.release == card.release && after.status == card.status
    ensures card.status != Some("available") ==>
      !after.tagHidden && after.tagText == ComingSoon
      && after.unlocked == card.unlocked && after.locked == card.locked
    ensures card.status == Some("available") ==>
      (after.unlocked && after.tagHidden && after.locked == card.locked && after.tagText == card.tagText)
      != (after.locked && !after.tagHidden && after.unlocked == card.unlocked && after.tagText.AvailableIn?)
    ensures card.status == Some("available") && card.release.Some? ==>
      (after.tagHidden <==> MembershipWeeks(signUp, now) >= card.release.value - 1)
    ensures (card.status == Some("available") && card.release.Some?
             && MembershipWeeks(signUp, now) < card.release.value - 1) ==>
      after.tagText == AvailableIn(LockedCountdown(ReleaseDate(signUp, card.release.value) - now))
    ensures card.status == Some("available") && card.release.None? ==>
      after.locked && !after.tagHidden && after.tagText == AvailableIn(InNaNDays)
  {
    Apply(card, Decide(card.status, card.release, signUp, now))
  }

  // ---------------------------------------------------------------------------
  // The unlock week, as written and as intended
  // ---------------------------------------------------------------------------

  /**
   * As written, a card unlocks one week before its release date: the 1-based
   * membership week is compared with the 0-based release offset.
   */
  lemma {:induction false} UnlocksAWeekEarly(signUp: int, now: int, release: int)
    ensures MembershipWeeks(signUp, now) >= release - 1 <==> now >= ReleaseDate(signUp, release) - WEEK_MS
  {
    var weeks := MembershipWeeks(signUp, now);
    if weeks >= release - 1 {
      assert (release - 2) * WEEK_MS <= (weeks - 1) * WEEK_MS by {
        MonotoneWeeks(release - 2, weeks - 1);
      }
    } else {
      assert weeks * WEEK_MS <= (release - 2) * WEEK_MS by {
        MonotoneWeeks(weeks, release - 2);
      }
    }
  }

  lemma MonotoneWeeks(a: int, b: int)
    requires a <= b
    ensures a * WEEK_MS <= b * WEEK_MS
  {
  }

  /**
   * As written, a locked card is always more than 7 days from its release
   * date, so its countdown is always in weeks: the "days" label is never shown.
   */
  lemma LockedCountdownAlwaysWeeks(card: Card, signUp: int, now: int)
    requires card.status == Some("available") && card.release.Some?
    requires Schedule(card, signUp, now).locked && !card.locked
    ensures Schedule(card, signUp, now).tagText.AvailableIn?
    ensures Schedule(card, signUp, now).tagText.countdown.InWeeks?
  {
    UnlocksAWeekEarly(signUp, now, card.release.value);
  }

  /** Signing up and looking at once: the week-2 card is unlocked, its release date 7 days ahead. */
  lemma UnlockedBeforeRelease()
    ensures var card := Card(Some(2), Some("available"), false, false, false, Markup(""));
      Schedule(card, 0, 0).unlocked && 0 < ReleaseDate(0, 2)
  {
  }

  /**
   * The evidently intended rule: the card unlocks in its own membership week,
   * that is, exactly from its release date on.
   */
  function DecideIntended(status: Option<string>, release: Option<int>, signUp: int, now: int): (outcome: Outcome)
    ensures outcome == ShowComingSoon <==> status != Some("available")
    ensures status == Some("available") && release.Some? ==>
      (outcome == Unlock <==> now >= ReleaseDate(signUp, release.value))
    ensures status == Some("available") && release.None? ==> outcome == Lock(InNaNDays)
  {
    if status != Some("available") then ShowComingSoon
    else match release
      case None => Lock(InNaNDays)
      case Some(n) =>
        UnlocksAWeekEarly(signUp, now, n + 1);
        if MembershipWeeks(signUp, now) >= n then Unlock
        else Lock(LockedCountdown(ReleaseDate(signUp, n) - now))
  }

  /**
   * Under the intended rule a locked card's countdown is positive: in days
   * during the last week before release, in weeks before that.
   */
  lemma {:induction false} IntendedCountdown(signUp: int, now: int, release: int)
    ensures DecideIntended(Some("available"), Some(release), signUp, now).Lock? ==>
      var c := DecideIntended(Some("available"), Some(release), signUp, now).countdown;
      && (c.InDays? ==> 1 <= c.days <= 7)
      && (c.InWeeks? ==> c.weeks >= 2)
      && (now >= ReleaseDate(signUp, release) - WEEK_MS ==> c.InDays?)
  {
    UnlocksAWeekEarly(signUp, now, release + 1);
  }

  // ---------------------------------------------------------------------------
  // getMemberData
  // ---------------------------------------------------------------------------

  /** The member's "sign-up-date" custom field. */
  datatype SignUpDate = Absent | Unparseable | At(ms: int)

  /** member.data, when someone is logged in. */
  datatype MemberData = MemberData(signUp: SignUpDate)

  /** The `.postcard` pass, with the membership week computed once. */
  method ApplySchedule(cards: array<Card>, signUp: int, now: int)
    modifies cards
    ensures forall i :: 0 <= i < cards.Length ==> cards[i] == Schedule(old(cards[i]), signUp, now)
  {
    var membershipDurationWeeks := (now - signUp) / WEEK_MS + 1;
    assert membershipDurationWeeks == MembershipWeeks(signUp, now);
    for i := 0 to cards.Length
      invariant forall k :: 0 <= k < i ==> cards[k] == Schedule(old(cards[k]), signUp, now)
      invariant forall k :: i <= k < cards.Length ==> cards[k] == old(cards[k])
    {
      var post := cards[i];
      var outcome: Outcome;
      if post.status != Some("available") {
        outcome := ShowComingSoon;
      } else if post.release.None? {
        outcome := Lock(InNaNDays);
      } else if membershipDurationWeeks >= post.release.value - 1 {
        outcome := Unlock;
      } else {
        var remaining := ReleaseDate(signUp, post.release.value) - now;
        if remaining > 7 * DAY_MS {
          outcome := Lock(InWeeks((remaining + WEEK_MS - 1) / WEEK_MS));
        } else {
          outcome := Lock(InDays((remaining + DAY_MS - 1) / DAY_MS));
        }
      }
      cards[i] := Apply(post, outcome);
    }
  }

  /** The `.post` pass for a visitor who is not logged in. */
  method MarkComingSoon(posts: array<Card>)
    modifies posts
    ensures forall i :: 0 <= i < posts.Length ==>
      posts[i] == old(posts[i]).(tagHidden := false, tagText := ComingSoon)
  {
    for i := 0 to posts.Length
      invariant forall k :: 0 <= k < i ==> posts[k] == old(posts[k]).(tagHidden := false, tagText := ComingSoon)
      invariant forall k :: i <= k < posts.Length ==> posts[k] == old(posts[k])
    {
      posts[i] := posts[i].(tagHidden := false, tagText := ComingSoon);
    }
  }

  /**
   * getMemberData once the member has been fetched: with no member every
   * `.post` card shows "Coming soon"; with a member but a missing or
   * unparseable sign-up date nothing changes; otherwise every `.postcard` is
   * scheduled.
   */
  method GetMemberData(member: Option<MemberData>, now: int, postcards: array<Card>, posts: array<Card>)
    requires postcards != posts
    modifies postcards, posts
    ensures member.None? ==>
      && postcards[..] == old(postcards[..])
      && (forall i :: 0 <= i < posts.Length ==>
            posts[i] == old(posts[i]).(tagHidden := false, tagText := ComingSoon))
    ensures member.Some? && !member.value.signUp.At? ==>
      postcards[..] == old(postcards[..]) && posts[..] == old(posts[..])
    ensures member.Some? && member.value.signUp.At? ==>
      && posts[..] == old(posts[..])
      && (forall i :: 0 <= i < postcards.Length ==>
            postcards[i] == Schedule(old(postcards[i]), member.value.signUp.ms, now))
  {
    if member.None? {
      MarkComingSoon(posts);
      return;
    }
    match member.value.signUp
    case Absent => return;
    case Unparseable => return;
    case At(signUp) => ApplySchedule(postcards, signUp, now);
  }

  // ---------------------------------------------------------------------------
  // trackVimeo
  // ---------------------------------------------------------------------------

  /**
   * Math.floor((percent * 100) / 10) * 10: the fraction watched, as a
   * percentage rounded down to a multiple of 10.
   */
  function Milestone(fraction: real): (percent: int)
    ensures percent % 10 == 0
    ensures percent as real <= fraction * 100.0 < percent as real + 10.0
  {
    ((fraction * 100.0) / 10.0).Floor * 10
  }

  /** A fraction in [0, 1] gives a milestone between 0 and 100. */
  lemma MilestoneBounds(fraction: real)
    requires 0.0 <= fraction <= 1.0
    ensures 0 <= Milestone(fraction) <= 100
  {
  }
}
