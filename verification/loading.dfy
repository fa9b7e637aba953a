/**
 * The animated dots of frontend/src/components/Loading.jsx: every 500 ms the
 * interval advances `dots` one step round the cycle '', '.', '..', '...'.
 */
module Loading {

  const Start := ""

  /** `prev.length >= 3 ? '' : prev + '.'`. */
  function Step(dots: string): (r: string)
    ensures |dots| >= 3 ==> r == ""
    ensures |dots| < 3 ==> r == dots + "."
  {
    if |dots| >= 3 then "" else dots + "."
  }

  /** The four states the cycle visits. */
  predicate IsDots(dots: string) {
    dots == "" || dots == "." || dots == ".." || dots == "..."
  }

  /** The dots after `n` ticks from `dots`. */
  function Ticks(dots: string, n: nat): string
    decreases n
  {
    if n == 0 then dots else Ticks(Step(dots), n - 1)
  }

  /** A step never leaves the cycle. */
  lemma StepKeepsDots(dots: string)
    requires IsDots(dots)
    ensures IsDots(Step(dots))
  {
  }

  /** Four steps from any state of the cycle come back to it. */
  lemma FourStepsReturn(dots: string)
    requires IsDots(dots)
    ensures Ticks(dots, 4) == dots
  {
  }

  /** After `n` ticks from the start the text shows `n mod 4` dots. */
  lemma {:induction false} DotsAfter(n: nat)
    ensures Ticks(Start, n) == "..."[..n % 4]
    ensures IsDots(Ticks(Start, n))
    decreases n
  {
    if n >= 4 {
      FourStepsReturn(Start);
      TicksSplit(Start, 4, n - 4);
      DotsAfter(n - 4);
    } else {
      assert Ticks("...", 0) == "...";
      assert Ticks("..", 1) == "...";
      assert Ticks(".", 2) == "...";
      assert Ticks("..", 0) == "..";
      assert Ticks(".", 1) == "..";
      assert "..."[..n % 4] == "..."[..n];
    }
  }

  lemma {:induction false} TicksSplit(dots: string, m: nat, n: nat)
    ensures Ticks(dots, m + n) == Ticks(Ticks(dots, m), n)
    decreases m
  {
    if m > 0 {
      TicksSplit(Step(dots), m - 1, n);
    }
  }
}
