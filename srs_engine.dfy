/** The spaced-repetition scheduler: from a card's interval, ease and state
    and a rating, the next interval (in days), ease, state and due day. A new
    card gets fixed values; a card under review has its interval scaled and
    its ease nudged within bounds. Dates are day numbers and "now" is a
    parameter. */
module SrsEngine {
  import opened Common

  datatype Rating = Again | Hard | Good | Easy

  datatype CardState = New | Learning | Review | Relearning

  /** The scheduling fields of a flashcard; a missing field is None. */
  datatype Card = Card(interval: Option<real>, ease: Option<real>, state: Option<CardState>)

  datatype SrsResult = SrsResult(interval: int, ease: real, dueDay: int, state: CardState)

  function Floor(x: real): int { x.Floor }

  function MaxReal(a: real, b: real): real { if a >= b then a else b }

  function MinReal(a: real, b: real): real { if a <= b then a else b }

  function MaxInt(a: int, b: int): int { if a >= b then a else b }

  /** `addDays(date, days)`, on day numbers. */
  function AddDays(day: int, days: int): (r: int)
    ensures r - day == days
  {
    day + days
  }

  /** `calculateNextReview(card, rating)`, with `today` the current day. */
  function CalculateNextReview(card: Card, rating: Rating, today: int): (r: SrsResult)
    // missing fields default to interval 0, ease 2.5, state new
    ensures card.state.None? ==> r == CalculateNextReview(Card(card.interval, card.ease, Some(New)), rating, today)
    // a new card's schedule is fixed, whatever it stored
    ensures card.state == Some(New) || card.state.None? ==>
      r == (match rating
            case Again => SrsResult(0, 2.5, today, Learning)
            case Hard => SrsResult(1, 2.3, today + 1, Review)
            case Good => SrsResult(1, 2.5, today + 1, Review)
            case Easy => SrsResult(4, 2.7, today + 4, Review))
    ensures card.state.Some? && card.state.value != New ==>
      var ease := if card.ease.Some? then card.ease.value else 2.5;
      r.interval >= 1
      && (rating == Again ==> r.interval == 1 && r.ease >= 1.3 && r.state == Relearning)
      && (rating == Hard ==> r.ease >= 1.3 && r.ease <= MaxReal(1.3, ease) && r.state == Review)
      && (rating == Good ==> r.ease == ease && r.state == Review)
      && (rating == Easy ==> r.ease <= 5.0 && r.ease >= MinReal(5.0, ease) && r.state == Review)
    ensures r.dueDay == today + r.interval
    decreases card.state.None?
  {
    var interval := if card.interval.Some? then card.interval.value else 0.0;
    var ease := if card.ease.Some? then card.ease.value else 2.5;
    var state := if card.state.Some? then card.state.value else New;
    if state == New then
      match rating
      case Again => SrsResult(0, 2.5, today, Learning)
      case Hard => SrsResult(1, 2.3, AddDays(today, 1), Review)
      case Good => SrsResult(1, 2.5, AddDays(today, 1), Review)
      case Easy => SrsResult(4, 2.7, AddDays(today, 4), Review)
    else
      var (i, e, s) :=
        match rating
        case Again => (1, MaxReal(1.3, ease - 0.2), Relearning)
        case Hard => (MaxInt(1, Floor(interval * 1.2)), MaxReal(1.3, ease - 0.15), Review)
        case Good => (MaxInt(1, Floor(interval * ease)), ease, Review)
        case Easy => (MaxInt(1, Floor(interval * ease * 1.3)), MinReal(5.0, ease + 0.15), Review);
      SrsResult(i, e, AddDays(today, i), s)
  }

  /** Reviewing a card that is not new never shortens a long interval on
      `good` when its ease is at least 1. */
  lemma GoodKeepsInterval(interval: real, ease: real, state: CardState, today: int)
    requires state != New && interval >= 1.0 && ease >= 1.0
    ensures CalculateNextReview(Card(Some(interval), Some(ease), Some(state)), Good, today).interval >= interval.Floor
  {
    ScaledFloorAtLeast(interval, ease);
  }

  /** Scaling a non-negative length by at least 1 does not lower its floor. */
  lemma ScaledFloorAtLeast(x: real, k: real)
    requires x >= 0.0 && k >= 1.0
    ensures (x * k).Floor >= x.Floor
  {
    assert x * k >= x by {
      assert x * k == x + x * (k - 1.0);
      assert x * (k - 1.0) >= 0.0;
    }
  }

  /** The ease of a card under review stays within [1.3, 5.0] when it
      started there. */
  lemma EaseStaysInBounds(card: Card, rating: Rating, today: int)
    requires card.state.Some? && card.state.value != New
    requires card.ease.Some? && 1.3 <= card.ease.value <= 5.0
    ensures 1.3 <= CalculateNextReview(card, rating, today).ease <= 5.0
  {
  }
}
