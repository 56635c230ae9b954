/** What the fee growth inside a band means: the pool's whole growth while its tick was in
    the band, whatever the tick did before and after, and whatever wrapped. */
module FeeInside {
  import opened FeeGrowth
  import opened MakerEquity

  predicate IsWord(x: int) {
    0 <= x < WORDS
  }

  /** Wrapping addition of 256-bit words. */
  function Add(a: Word, b: Word): Word {
    if a + b < WORDS then a + b else a + b - WORDS
  }

  /** The pool's global growth, its tick, and the growth outside each initialized tick. */
  datatype Pool = Pool(global: Word, tick: Tick, outside: map<Tick, Word>)

  datatype Change = Grow(amount: Word) | MoveTo(target: Tick)

  ghost predicate Valid(pool: Pool) {
    IsWord(pool.global) && forall t :: t in pool.outside ==> IsWord(pool.outside[t])
  }

  predicate Crosses(pool: Pool, target: Tick, t: Tick) {
    (pool.tick >= t) != (target >= t)
  }

  /** Crossing an initialized tick turns its outside growth over. */
  function Step(pool: Pool, change: Change): Pool {
    match change
    case Grow(amount) => pool.(global := Add(pool.global, amount))
    case MoveTo(target) =>
      Pool(pool.global, target,
           map t | t in pool.outside ::
             if Crosses(pool, target, t) then Since(pool.global, pool.outside[t]) else pool.outside[t])
  }

  function After(pool: Pool, changes: seq<Change>): Pool
    decreases |changes|
  {
    if changes == [] then pool else After(Step(pool, changes[0]), changes[1..])
  }

  /** The growth, wrapped, while the tick was in the band. */
  function Earned(pool: Pool, changes: seq<Change>, lower: Tick, upper: Tick): Word
    decreases |changes|
  {
    if changes == [] then 0
    else Add(if changes[0].Grow? && lower <= pool.tick < upper then changes[0].amount else 0,
             Earned(Step(pool, changes[0]), changes[1..], lower, upper))
  }

  function Inside(pool: Pool, lower: Tick, upper: Tick): Word
    requires lower in pool.outside && upper in pool.outside
  {
    FeeGrowthInside(pool.global, pool.outside[lower], pool.outside[upper], lower, upper, pool.tick)
  }

  lemma {:induction false} TurningOverTwice(now: Word, before: Word)
    requires IsWord(now) && IsWord(before)
    ensures IsWord(Since(now, before)) && Since(now, Since(now, before)) == before
  {
  }

  /** The growth inside, by where the tick is. */
  lemma {:induction false} InsideByCases(global: Word, outsideLower: Word, outsideUpper: Word, lower: Tick,
                                         upper: Tick, tick: Tick)
    requires IsWord(global) && IsWord(outsideLower) && IsWord(outsideUpper) && lower <= upper
    ensures FeeGrowthInside(global, outsideLower, outsideUpper, lower, upper, tick)
            == if tick < lower then Since(outsideLower, outsideUpper)
               else if tick < upper then Since(Since(global, outsideLower), outsideUpper)
               else Since(outsideUpper, outsideLower)
  {
  }

  lemma {:induction false} GrowingInside(pool: Pool, amount: Word, lower: Tick, upper: Tick)
    requires Valid(pool) && IsWord(amount) && lower <= upper
    requires lower in pool.outside && upper in pool.outside
    ensures Inside(Step(pool, Grow(amount)), lower, upper)
            == Add(Inside(pool, lower, upper), if lower <= pool.tick < upper then amount else 0)
  {
    InsideByCases(pool.global, pool.outside[lower], pool.outside[upper], lower, upper, pool.tick);
    InsideByCases(Add(pool.global, amount), pool.outside[lower], pool.outside[upper], lower, upper, pool.tick);
  }

  lemma {:induction false} MovingInside(pool: Pool, target: Tick, lower: Tick, upper: Tick)
    requires Valid(pool) && lower <= upper
    requires lower in pool.outside && upper in pool.outside
    ensures Inside(Step(pool, MoveTo(target)), lower, upper) == Inside(pool, lower, upper)
  {
    var moved := Step(pool, MoveTo(target));
    TurningOverTwice(pool.global, pool.outside[lower]);
    TurningOverTwice(pool.global, pool.outside[upper]);
    InsideByCases(pool.global, pool.outside[lower], pool.outside[upper], lower, upper, pool.tick);
    InsideByCases(pool.global, moved.outside[lower], moved.outside[upper], lower, upper, target);
  }

  lemma {:induction false} StepKeepsValid(pool: Pool, change: Change)
    requires Valid(pool) && (change.Grow? ==> IsWord(change.amount))
    ensures Valid(Step(pool, change)) && Step(pool, change).outside.Keys == pool.outside.Keys
  {
    if change.MoveTo? {
      forall t | t in pool.outside
        ensures IsWord(Since(pool.global, pool.outside[t]))
      {
        TurningOverTwice(pool.global, pool.outside[t]);
      }
    }
  }

  lemma {:induction false} AddAssociates(a: Word, b: Word, c: Word)
    requires IsWord(a) && IsWord(b) && IsWord(c)
    ensures IsWord(Add(a, b)) && Add(Add(a, b), c) == Add(a, Add(b, c))
    ensures Since(Add(a, b), a) == b
  {
  }

  lemma {:induction false} InsideIsAWord(pool: Pool, lower: Tick, upper: Tick)
    requires Valid(pool) && lower in pool.outside && upper in pool.outside
    ensures IsWord(Inside(pool, lower, upper))
  {
  }

  lemma {:induction false} EarnedIsAWord(pool: Pool, changes: seq<Change>, lower: Tick, upper: Tick)
    requires forall i :: 0 <= i < |changes| && changes[i].Grow? ==> IsWord(changes[i].amount)
    ensures IsWord(Earned(pool, changes, lower, upper))
    decreases |changes|
  {
    if changes != [] {
      EarnedIsAWord(Step(pool, changes[0]), changes[1..], lower, upper);
    }
  }

  /** Over any swaps and growth, the growth inside a band moves by exactly what accrued
      while the tick was in it: at the lower tick or above, and below the upper. So what a
      checkpoint taken before leaves uncollected is that, even past a wrap. */
  lemma {:induction false} InsideIsWhatAccruedInTheBand(pool: Pool, changes: seq<Change>, lower: Tick, upper: Tick)
    requires Valid(pool) && lower <= upper
    requires lower in pool.outside && upper in pool.outside
    requires forall i :: 0 <= i < |changes| && changes[i].Grow? ==> IsWord(changes[i].amount)
    ensures var after := After(pool, changes);
            && lower in after.outside && upper in after.outside
            && Inside(after, lower, upper) == Add(Inside(pool, lower, upper), Earned(pool, changes, lower, upper))
            && Since(Inside(after, lower, upper), Inside(pool, lower, upper)) == Earned(pool, changes, lower, upper)
    decreases |changes|
  {
    InsideIsAWord(pool, lower, upper);
    EarnedIsAWord(pool, changes, lower, upper);
    AddAssociates(Inside(pool, lower, upper), Earned(pool, changes, lower, upper), 0);
    if changes != [] {
      var change, next := changes[0], Step(pool, changes[0]);
      StepKeepsValid(pool, change);
      OneChangeInside(pool, change, lower, upper);
      EarnedIsAWord(next, changes[1..], lower, upper);
      InsideIsWhatAccruedInTheBand(next, changes[1..], lower, upper);
      AddAssociates(Inside(pool, lower, upper), if change.Grow? && lower <= pool.tick < upper then change.amount else 0,
                    Earned(next, changes[1..], lower, upper));
    }
  }

  lemma {:induction false} OneChangeInside(pool: Pool, change: Change, lower: Tick, upper: Tick)
    requires Valid(pool) && lower <= upper && (change.Grow? ==> IsWord(change.amount))
    requires lower in pool.outside && upper in pool.outside
    ensures Inside(Step(pool, change), lower, upper)
            == Add(Inside(pool, lower, upper), if change.Grow? && lower <= pool.tick < upper then change.amount else 0)
  {
    InsideIsAWord(pool, lower, upper);
    match change
    case Grow(amount) => GrowingInside(pool, amount, lower, upper);
    case MoveTo(target) => MovingInside(pool, target, lower, upper);
  }
}
