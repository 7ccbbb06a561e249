/** The testimonial carousel: one index into a fixed list of four, moved by the
    arrows and set by the dots. */
module Testimonials {

  /** The number of testimonials on the page. */
  const TestimonialCount: nat := 4

  /** `nextTestimonial`: one step forward, wrapping from the last to the first. */
  function Next(i: nat): (j: nat)
    ensures j < TestimonialCount
  {
    (i + 1) % TestimonialCount
  }

  /** `prevTestimonial`: one step back, wrapping from the first to the last. */
  function Prev(i: nat): (j: nat)
    ensures j < TestimonialCount
  {
    (i - 1 + TestimonialCount) % TestimonialCount
  }

  /** Within range, a step back undoes a step forward and the other way round. */
  lemma NextPrevInverse(i: nat)
    requires i < TestimonialCount
    ensures Prev(Next(i)) == i
    ensures Next(Prev(i)) == i
  {
  }

  /** `k` steps forward. */
  function Advance(i: nat, k: nat): nat {
    if k == 0 then i else Next(Advance(i, k - 1))
  }

  /** Stepping forward `k` times from an index in range lands `k` places on, modulo the
      number of testimonials. */
  lemma {:induction false} AdvanceIsModular(i: nat, k: nat)
    requires i < TestimonialCount
    ensures Advance(i, k) == (i + k) % TestimonialCount
  {
    if k > 0 {
      AdvanceIsModular(i, k - 1);
    }
  }

  /** A full round of steps returns to the start. */
  lemma FullRound(i: nat)
    requires i < TestimonialCount
    ensures Advance(i, TestimonialCount) == i
  {
    AdvanceIsModular(i, TestimonialCount);
  }

  class Carousel {
    var current: nat

    ghost predicate Valid()
      reads this
    {
      current < TestimonialCount
    }

    /** The carousel starts on the first testimonial. */
    constructor ()
      ensures Valid() && current == 0
    {
      current := 0;
    }

    method NextTestimonial()
      requires Valid()
      modifies this
      ensures Valid() && current == Next(old(current))
    {
      current := (current + 1) % TestimonialCount;
    }

    method PrevTestimonial()
      requires Valid()
      modifies this
      ensures Valid() && current == Prev(old(current))
    {
      current := (current - 1 + TestimonialCount) % TestimonialCount;
    }

    /** A dot click: the dots are drawn one per testimonial, so the index is in range. */
    method Jump(index: nat)
      requires index < TestimonialCount
      modifies this
      ensures Valid() && current == index
    {
      current := index;
    }
  }
}
