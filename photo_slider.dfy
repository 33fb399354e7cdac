/** The photo slider of a sight (`PhotoSlider.tsx`): the index of the photo shown, moved back and
    forth by two buttons that wrap around at the ends, and what the slider shows. */
module PhotoSlider {
  import opened Wrappers
  import opened Seqs
  import opened Text

  /** The update of `goToPrevious`: from the first photo to the last, otherwise one back. */
  function Previous(index: int, length: nat): int
  {
    if index == 0 then length - 1 else index - 1
  }

  /** The update of `goToNext`: from the last photo to the first, otherwise one on. */
  function Next(index: int, length: nat): int
  {
    if index == length - 1 then 0 else index + 1
  }

  /** On a non-empty list both moves are steps around a cycle of the list's length: they keep the
      index in range and undo each other. */
  lemma MovesAreCyclic(index: int, length: nat)
    requires 0 <= index < length
    ensures Next(index, length) == (index + 1) % length
    ensures Previous(index, length) == (index - 1) % length
    ensures 0 <= Next(index, length) < length && 0 <= Previous(index, length) < length
    ensures Next(Previous(index, length), length) == index
    ensures Previous(Next(index, length), length) == index
  {
  }

  /** The index after `count` presses of the next button. */
  function NextTimes(index: int, length: nat, count: nat): int
  {
    if count == 0 then index else Next(NextTimes(index, length, count - 1), length)
  }

  /** Presses that do not reach the last photo move the index one place each. */
  lemma {:induction false} NextTimesClimbs(index: int, length: nat, count: nat)
    requires 0 <= index && index + count < length
    ensures NextTimes(index, length, count) == index + count
  {
    if count > 0 {
      NextTimesClimbs(index, length, count - 1);
    }
  }

  /** Pressing `a` times and then `b` times is pressing `a + b` times. */
  lemma {:induction false} NextTimesAdd(index: int, length: nat, a: nat, b: nat)
    ensures NextTimes(NextTimes(index, length, a), length, b) == NextTimes(index, length, a + b)
  {
    if b > 0 {
      NextTimesAdd(index, length, a, b - 1);
    }
  }

  /** `count` presses below the end of the list move the index `count` places; `length` presses
      bring it back to where it started. */
  lemma NextTimesWraps(index: int, length: nat, count: nat)
    requires 0 <= index < length
    ensures index + count < length ==> NextTimes(index, length, count) == index + count
    ensures NextTimes(index, length, length) == index
  {
    if index + count < length {
      NextTimesClimbs(index, length, count);
    }
    NextTimesClimbs(index, length, length - 1 - index);
    assert NextTimes(index, length, length - index) == 0;
    NextTimesClimbs(0, length, index);
    NextTimesAdd(index, length, length - index, index);
  }

  /** What the slider shows: the photo, its alternative text and the counter. */
  datatype Slide = Slide(src: string, alt: string, counter: string)

  /** The counter "{n} / {length}". */
  function Counter(n: nat, length: nat): string
  {
    NatToText(n) + " / " + NatToText(length)
  }

  /** The alternative text "{place} - Photo {n}". */
  function PhotoAlt(placeName: string, n: nat): string
  {
    placeName + " - Photo " + NatToText(n)
  }

  function IsSpace(): char -> bool
  {
    (ch: char) => ch == ' '
  }

  /** In a number followed by a space, the first space comes right after the number's digits. */
  lemma SpaceEndsNumber(n: nat, rest: string)
    requires rest != [] && rest[0] == ' '
    ensures FirstIndex(NatToText(n) + rest, IsSpace()) == |NatToText(n)|
  {
    var t := NatToText(n);
    var s := t + rest;
    assert s[|t|] == ' ';
    assert forall j :: 0 <= j < |t| ==> s[j] == t[j] && IsDigit(t[j]);
  }

  /** Different positions in the same list show different counters. */
  lemma CounterTellsPosition(a: nat, b: nat, length: nat)
    requires Counter(a, length) == Counter(b, length)
    ensures a == b
  {
    var ta, tb, rest := NatToText(a), NatToText(b), " / " + NatToText(length);
    var c := Counter(a, length);
    assert c == ta + rest && c == tb + rest;
    SpaceEndsNumber(a, rest);
    SpaceEndsNumber(b, rest);
    assert ta == c[..|ta|] == tb;
  }

  class PhotoSliderState {
    const photos: seq<string>
    const placeName: string
    var currentIndex: int

    /** The index points at a photo whenever there is one. */
    ghost predicate Valid()
      reads this
    {
      |photos| > 0 ==> 0 <= currentIndex < |photos|
    }

    /** `useState(0)`. */
    constructor(photos: seq<string>, placeName: string)
      ensures this.photos == photos && this.placeName == placeName
      ensures currentIndex == 0 && Valid()
    {
      this.photos := photos;
      this.placeName := placeName;
      currentIndex := 0;
    }

    method GoToPrevious()
      requires Valid()
      modifies this
      ensures currentIndex == Previous(old(currentIndex), |photos|)
      ensures Valid()
    {
      currentIndex := if currentIndex == 0 then |photos| - 1 else currentIndex - 1;
    }

    method GoToNext()
      requires Valid()
      modifies this
      ensures currentIndex == Next(old(currentIndex), |photos|)
      ensures Valid()
    {
      currentIndex := if currentIndex == |photos| - 1 then 0 else currentIndex + 1;
    }

    /** Nothing for an empty list; otherwise the current photo, "{place} - Photo {n}" and the
        counter "{n} / {length}", where `n` is the index counted from 1. */
    function Render(): (r: Option<Slide>)
      requires Valid()
      reads this
      ensures r.None? <==> |photos| == 0
      ensures r.Some? ==> r.value.src == photos[currentIndex] && r.value.src in photos
      ensures r.Some? ==> 1 <= currentIndex + 1 <= |photos|
      ensures r.Some? ==> r.value.counter == Counter(currentIndex + 1, |photos|)
      ensures r.Some? ==> r.value.alt == PhotoAlt(placeName, currentIndex + 1)
    {
      if |photos| == 0 then None
      else
        Some(Slide(
          photos[currentIndex],
          placeName + " - Photo " + IntToText(currentIndex + 1),
          IntToText(currentIndex + 1) + " / " + IntToText(|photos|)))
    }
  }
}
