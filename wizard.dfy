/**
 * The wizard controller of HandlingNextPrev.js: a step counter in 1..5 moved by
 * guarded `next` / `previous` handlers, and the switch that picks the section
 * shown for the current step.
 */
module Wizard {

  import opened Js

  const FirstStep: int := 1
  const LastStep: int := 5

  /** The five sections of the self-assessment, in wizard order. */
  datatype Section =
    | AcademicProfile        // Assessment
    | LecturePerformance     // Hello
    | ResultPerformance      // PerformanceResultTable
    | AttendancePerformance  // StudentTable
    | ProjectGuidance        // StudentInnovation

  /** What `render` returns: a section, and whether it is handed `next` and `previous`. */
  datatype View = View(section: Section, hasNext: bool, hasPrevious: bool)

  /** The step after `next` from `count`. */
  function NextStep(count: int): int {
    if count < LastStep then count + 1 else count
  }

  /** The step after `previous` from `count`. */
  function PreviousStep(count: int): int {
    if count > FirstStep then count - 1 else count
  }

  /** The `render` switch; `None` is its `default: null` branch. */
  function Render(count: int): Option<View> {
    match count
    case 1 => Some(View(AcademicProfile, true, false))
    case 2 => Some(View(LecturePerformance, true, true))
    case 3 => Some(View(ResultPerformance, true, true))
    case 4 => Some(View(AttendancePerformance, true, true))
    case 5 => Some(View(ProjectGuidance, false, true))
    case _ => None
  }

  predicate InRange(count: int) {
    FirstStep <= count <= LastStep
  }

  /** A navigation button press. */
  datatype Move = Next | Previous

  function Step(count: int, m: Move): int {
    match m
    case Next => NextStep(count)
    case Previous => PreviousStep(count)
  }

  /** The step reached from `count` after pressing the buttons `moves` in order. */
  function Run(count: int, moves: seq<Move>): int
    decreases |moves|
  {
    if moves == [] then count else Run(Step(count, moves[0]), moves[1..])
  }

  /** `next` moves forward exactly when it can, and never leaves the range. */
  lemma NextSpec(count: int)
    requires InRange(count)
    ensures InRange(NextStep(count))
    ensures count < LastStep ==> NextStep(count) == count + 1
    ensures count == LastStep ==> NextStep(count) == count
  {
  }

  /** `previous` moves back exactly when it can, and never leaves the range. */
  lemma PreviousSpec(count: int)
    requires InRange(count)
    ensures InRange(PreviousStep(count))
    ensures count > FirstStep ==> PreviousStep(count) == count - 1
    ensures count == FirstStep ==> PreviousStep(count) == count
  {
  }

  /** Any sequence of button presses from a step in range stays in range. */
  lemma {:induction false} RunStaysInRange(count: int, moves: seq<Move>)
    requires InRange(count)
    ensures InRange(Run(count, moves))
    decreases |moves|
  {
    if moves != [] {
      RunStaysInRange(Step(count, moves[0]), moves[1..]);
    }
  }

  /** Pressing the buttons of `a` and then those of `b` is pressing those of `a + b`. */
  lemma {:induction false} RunConcat(count: int, a: seq<Move>, b: seq<Move>)
    ensures Run(Run(count, a), b) == Run(count, a + b)
    decreases |a|
  {
    if a == [] {
      assert a + b == b;
    } else {
      assert (a + b)[0] == a[0];
      assert (a + b)[1..] == a[1..] + b;
      RunConcat(Step(count, a[0]), a[1..], b);
    }
  }

  /** `next` then `previous` returns to the step it started from whenever `next` could move. */
  lemma NextThenPrevious(count: int)
    requires FirstStep <= count < LastStep
    ensures Run(count, [Next, Previous]) == count
  {
    assert [Next, Previous][1..] == [Previous];
  }

  /**
   * Every step in range renders exactly one section, each section belongs to
   * exactly one step, and `default: null` is reached only outside the range.
   */
  lemma RenderTotalOnRange(count: int, other: int)
    ensures Render(count).Some? <==> InRange(count)
    ensures InRange(count) && InRange(other) && count != other ==>
              Render(count).value.section != Render(other).value.section
  {
  }

  /** A section is handed `next` (or `previous`) exactly when pressing it would move the wizard. */
  lemma RenderOffersOnlyMovingButtons(count: int)
    requires InRange(count)
    ensures Render(count).value.hasNext <==> NextStep(count) != count
    ensures Render(count).value.hasPrevious <==> PreviousStep(count) != count
  {
  }

  /** The component's `count` state. */
  class Controller {
    var count: int

    ghost predicate Valid()
      reads this
    {
      InRange(count)
    }

    /** `useState(1)` */
    constructor ()
      ensures Valid() && count == FirstStep
    {
      count := FirstStep;
    }

    /** `next`: one step forward unless already on the last step. */
    method Next()
      requires Valid()
      modifies this
      ensures Valid()
      ensures count == NextStep(old(count))
      ensures old(count) < LastStep ==> count == old(count) + 1
      ensures old(count) == LastStep ==> count == old(count)
    {
      if count < LastStep {
        count := count + 1;
      }
    }

    /** `previous`: one step back unless already on the first step. */
    method Previous()
      requires Valid()
      modifies this
      ensures Valid()
      ensures count == PreviousStep(old(count))
      ensures old(count) > FirstStep ==> count == old(count) - 1
      ensures old(count) == FirstStep ==> count == old(count)
    {
      if count > FirstStep {
        count := count - 1;
      }
    }

    /** `render` for the current step; never its `default` branch. */
    function Current(): (v: View)
      reads this
      requires Valid()
      ensures Render(count) == Some(v)
    {
      Render(count).value
    }
  }
}
