/** The memory lightbox of script.js:1218-1250: a cursor over a fixed sequence of
    memories, moved by the previous and next buttons. */
module MemoryLightbox {
  import opened Digits
  import opened Progress

  /** The previous button's handler on index `c`. */
  function StepPrev(c: int): int {
    if c > 0 then c - 1 else c
  }

  /** The next button's handler on index `c` of `n` memories. */
  function StepNext(c: int, n: int): int {
    if c < n - 1 then c + 1 else c
  }

  /** Both buttons keep the cursor on a memory, and a button does nothing exactly
      when it is rendered disabled. */
  lemma StepsStayInRange(c: int, n: int)
    requires 0 <= c < n
    ensures 0 <= StepPrev(c) < n && 0 <= StepNext(c, n) < n
    ensures StepPrev(c) == c <==> c == 0
    ensures StepNext(c, n) == c <==> c == n - 1
  {
  }

  /** Previous undoes next and next undoes previous, away from the ends. */
  lemma StepsInverse(c: int, n: int)
    requires 0 <= c < n
    ensures c < n - 1 ==> StepPrev(StepNext(c, n)) == c
    ensures c > 0 ==> StepNext(StepPrev(c), n) == c
  {
  }

  /** `k` presses of the next button. */
  function NextTimes(c: int, n: int, k: nat): int {
    if k == 0 then c else StepNext(NextTimes(c, n, k - 1), n)
  }

  /** From the first memory, `k` presses of next reach memory min(k, n - 1). */
  lemma {:induction false} NextTimesFromStart(n: int, k: nat)
    requires n > 0
    ensures NextTimes(0, n, k) == if k < n - 1 then k else n - 1
  {
    if k > 0 {
      NextTimesFromStart(n, k - 1);
    }
  }

  /** The counter text `${current + 1} / ${memories.length}`. */
  function CounterText(c: nat, n: nat): string {
    Decimal(c + 1) + " / " + Decimal(n)
  }

  /** The counter starts with the 1-based position of the memory shown. */
  lemma CounterShowsPosition(c: nat, n: nat)
    ensures DigitsValue(LeadingDigits(CounterText(c, n))) == c + 1
  {
    assert CounterText(c, n) == Decimal(c + 1) + (" / " + Decimal(n));
    LeadingNumber(c + 1, " / " + Decimal(n));
  }

  class Lightbox {
    const memories: seq<Memory>
    var current: int

    predicate Valid()
      reads this
    {
      0 <= current < |memories|
    }

    /** showMemoryLightbox: `start` is the index of the View button pressed. */
    constructor (memories: seq<Memory>, start: int)
      requires 0 <= start < |memories|
      ensures Valid() && this.memories == memories && current == start
    {
      this.memories := memories;
      current := start;
    }

    /** The memory on display. */
    function Shown(): Memory
      requires Valid()
      reads this
    {
      memories[current]
    }

    predicate PrevDisabled()
      reads this
    {
      current == 0
    }

    predicate NextDisabled()
      reads this
    {
      current == |memories| - 1
    }

    function Counter(): string
      requires Valid()
      reads this
    {
      CounterText(current, |memories|)
    }

    method Prev()
      requires Valid()
      modifies this
      ensures Valid() && current == StepPrev(old(current))
    {
      if current > 0 {
        current := current - 1;
      }
    }

    method Next()
      requires Valid()
      modifies this
      ensures Valid() && current == StepNext(old(current), |memories|)
    {
      if current < |memories| - 1 {
        current := current + 1;
      }
    }
  }
}
