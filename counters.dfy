/** The two timers of the landing page: the statistics counters that
    climb to their final values, and the testimonial carousel. */
module Counters {

  /** The `stats` state: años, platillos and clientes. */
  datatype Stats = Stats(anios: int, platillos: int, clientes: int)

  const Start := Stats(0, 0, 0)
  const Final := Stats(15, 50, 1000)

  function Min(a: int, b: int): int {
    if a <= b then a else b
  }

  /** One tick of the statistics timer: each counter moves by its step
      while below its limit, and is otherwise set to the limit. */
  function Tick(prev: Stats): (r: Stats)
    ensures prev.anios <= 15 ==> prev.anios <= r.anios <= 15
    ensures prev.platillos <= 50 && prev.platillos % 2 == 0 ==>
              prev.platillos <= r.platillos <= 50 && r.platillos % 2 == 0
    ensures prev.clientes <= 1000 && prev.clientes % 50 == 0 ==>
              prev.clientes <= r.clientes <= 1000 && r.clientes % 50 == 0
  {
    Stats(
      if prev.anios < 15 then prev.anios + 1 else 15,
      if prev.platillos < 50 then prev.platillos + 2 else 50,
      if prev.clientes < 1000 then prev.clientes + 50 else 1000)
  }

  /** The counters after `n` ticks from zero. */
  function Ticks(n: nat): Stats {
    if n == 0 then Start else Tick(Ticks(n - 1))
  }

  /** After `n` ticks each counter is its step times `n`, capped at its
      limit. */
  lemma {:induction false} TicksClosedForm(n: nat)
    ensures Ticks(n) == Stats(Min(n, 15), Min(2 * n, 50), Min(50 * n, 1000))
  {
    if n > 0 {
      TicksClosedForm(n - 1);
    }
  }

  /** Every value shown stays within its limit and on its step: años at
      most 15, platillos even and at most 50, clientes a multiple of 50 and
      at most 1000. */
  lemma TicksBounded(n: nat)
    ensures 0 <= Ticks(n).anios <= 15
    ensures 0 <= Ticks(n).platillos <= 50 && Ticks(n).platillos % 2 == 0
    ensures 0 <= Ticks(n).clientes <= 1000 && Ticks(n).clientes % 50 == 0
  {
    TicksClosedForm(n);
  }

  /** The counters never go down. */
  lemma TicksMonotone(m: nat, n: nat)
    requires m <= n
    ensures Ticks(m).anios <= Ticks(n).anios
    ensures Ticks(m).platillos <= Ticks(n).platillos
    ensures Ticks(m).clientes <= Ticks(n).clientes
  {
    TicksClosedForm(m);
    TicksClosedForm(n);
  }

  /** From the 25th tick on, all three counters rest at their final values. */
  lemma TicksSettle(n: nat)
    requires n >= 25
    ensures Ticks(n) == Final
  {
    TicksClosedForm(n);
  }

  /** `testimonios.length`: the page lists three testimonials. */
  const TestimonialCount := 3

  /** One step of the carousel timer. */
  function NextTestimonial(prev: nat): (r: nat)
    ensures r < TestimonialCount
  {
    (prev + 1) % TestimonialCount
  }

  /** The testimonial shown after `k` steps from the first. */
  function Shown(k: nat): nat {
    if k == 0 then 0 else NextTestimonial(Shown(k - 1))
  }

  /** The carousel is at index `k mod 3` after `k` steps: it stays in range
      and visits the testimonials in turn. */
  lemma {:induction false} ShownIsMod(k: nat)
    ensures Shown(k) == k % TestimonialCount
  {
    if k > 0 {
      ShownIsMod(k - 1);
    }
  }

  /** Every testimonial is shown: index `i` is reached after `i` steps and
      again every three steps after that. */
  lemma VisitsEvery(i: nat, rounds: nat)
    requires i < TestimonialCount
    ensures Shown(i + rounds * TestimonialCount) == i
  {
    ShownIsMod(i + rounds * TestimonialCount);
  }
}
