/** useSteps: the active step of a sequence, derived from the clock's counter. */
module Steps {

  /** The step count the hook uses when none is given. */
  const DefaultSteps: int := 16

  /**
   * JavaScript's `%`: the quotient is truncated toward zero, so the remainder
   * has the sign of the dividend (unlike Dafny's Euclidean `%`).
   */
  function JsRemainder(a: int, n: int): (r: int)
    requires n != 0
    ensures a >= 0 ==> 0 <= r < (if n > 0 then n else -n)
    ensures a < 0 ==> -(if n > 0 then n else -n) < r <= 0
    ensures exists q :: a == q * n + r
  {
    if a >= 0 then
      assert a == (a / n) * n + a % n;
      a % n
    else
      assert -a == ((-a) / n) * n + (-a) % n;
      assert a == (-((-a) / n)) * n + -((-a) % n);
      -((-a) % n)
  }

  /** `clockCounter % steps`. */
  function StepOf(counter: int, steps: int): (step: int)
    requires steps > 0
    ensures counter >= 0 ==> 0 <= step < steps
    ensures counter < 0 ==> -steps < step <= 0
  {
    JsRemainder(counter, steps)
  }

  /** For a counter that is not negative, the step agrees with the mathematical residue. */
  lemma StepIsResidue(counter: int, steps: int)
    requires counter >= 0 && steps > 0
    ensures StepOf(counter, steps) == counter % steps
    ensures counter < steps ==> StepOf(counter, steps) == counter
  {
    assert StepOf(counter, steps) == counter % steps;
    if counter < steps {
      DivModUnique(counter, steps, 0, counter);
    }
  }

  /** Adding one full period to a counter that is not negative leaves its residue alone. */
  lemma {:induction false} ResidueShift(c: int, n: int)
    requires c >= 0 && n > 0
    ensures (c + n) % n == c % n
  {
    var q, r := c / n, c % n;
    assert c == q * n + r;
    assert c + n == (q + 1) * n + r;
    DivModUnique(c + n, n, q + 1, r);
  }

  /** Euclidean division is determined by its defining equation and the bound on the remainder. */
  lemma {:induction false} DivModUnique(a: int, n: int, q: int, r: int)
    requires n > 0 && 0 <= r < n && a == q * n + r
    ensures a % n == r
  {
    var q', r' := a / n, a % n;
    assert a == q' * n + r';
    var d := q - q';
    assert d * n == r' - r by {
      assert q * n - q' * n == (q - q') * n;
    }
    if d >= 1 {
      MulAtLeast(d, n);
    } else if d <= -1 {
      MulAtLeast(-d, n);
    }
  }

  lemma MulAtLeast(d: int, n: int)
    requires d >= 1 && n > 0
    ensures d * n >= n
  {
  }

  /** The step repeats every `steps` ticks: counter and counter + k * steps share a step. */
  lemma {:induction false} StepPeriodic(counter: int, steps: int, k: nat)
    requires counter >= 0 && steps > 0
    ensures StepOf(counter + k * steps, steps) == StepOf(counter, steps)
  {
    if k > 0 {
      StepPeriodic(counter, steps, k - 1);
      var c := counter + (k - 1) * steps;
      assert counter + k * steps == c + steps;
      ResidueShift(c, steps);
    }
  }

  /** The sequencer's sixteen steps: 0 -> 0, 15 -> 15, 16 -> 0, 31 -> 15. */
  lemma SixteenStepExamples()
    ensures StepOf(0, DefaultSteps) == 0 && StepOf(15, DefaultSteps) == 15
    ensures StepOf(16, DefaultSteps) == 0 && StepOf(31, DefaultSteps) == 15
  {
  }

  /** The hook's state: the stored `currentStep` for a fixed step count. */
  class StepIndexer {
    var currentStep: int
    const steps: int

    ghost predicate Valid()
      reads this
    {
      steps > 0 && -steps < currentStep < steps
    }

    /** The first render: `currentStep` starts at 0 whatever the counter. */
    constructor (steps: int)
      requires steps > 0
      ensures Valid() && this.steps == steps && currentStep == 0
    {
      this.steps := steps;
      currentStep := 0;
    }

    /** The effect that runs when the clock's counter changes. */
    method Observe(clockCounter: int)
      requires Valid()
      modifies this
      ensures Valid() && currentStep == StepOf(clockCounter, steps)
      ensures clockCounter >= 0 ==> 0 <= currentStep < steps
    {
      currentStep := StepOf(clockCounter, steps);
    }

    /** `reset`: back to step 0, independent of the counter. */
    method Reset()
      requires Valid()
      modifies this
      ensures Valid() && currentStep == 0
    {
      currentStep := 0;
    }
  }
}
