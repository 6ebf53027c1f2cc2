/**
 * The project-guidance section of StudentInnovation.js: a list of guided
 * projects addressed by identity, an innovation narrative, and the total
 * credits kept equal to the capped project sum plus the innovation bonus.
 */
module ProjectGuidance {

  import opened Js
  import opened Seqs

  /** A project identity; the component draws it from `Date.now()`, here it is handed in. */
  type Id = nat

  /** The cap on the credits that guided projects can add up to. */
  const ProjectCap: real := 6.0

  /** The credits a non-blank innovation narrative adds. */
  const InnovationBonus: real := 4.0

  datatype Project = Project(id: Id, name: string, funding: string, duration: string, cost: string, credits: string)

  /** The project `addProject` appends: every field `''`. */
  function EmptyProject(id: Id): Project {
    Project(id, "", "", "", "", "")
  }

  datatype Field = Name | Funding | Duration | Cost | Credits

  /** `{ ...project, [field]: value }` */
  function SetField(p: Project, field: Field, value: string): (r: Project)
    ensures r.id == p.id
    ensures field != Credits ==> r.credits == p.credits
  {
    match field
    case Name => p.(name := value)
    case Funding => p.(funding := value)
    case Duration => p.(duration := value)
    case Cost => p.(cost := value)
    case Credits => p.(credits := value)
  }

  // ---------------------------------------------------------------------------
  // Total credits
  // ---------------------------------------------------------------------------

  /** `parseFloat(project.credits || 0)`: blank counts as 0; `None` is NaN. */
  function CreditOf(p: Project): Option<real> {
    if p.credits == "" then Some(0.0) else ParseFloat(p.credits)
  }

  /** The credits of each project, in order. */
  function Readings(projects: seq<Project>): (r: seq<Option<real>>)
    ensures |r| == |projects| && forall i :: 0 <= i < |projects| ==> r[i] == CreditOf(projects[i])
  {
    seq(|projects|, i requires 0 <= i < |projects| => CreditOf(projects[i]))
  }

  /** `a + b` on numbers that may be NaN. */
  function Plus(a: Option<real>, b: Option<real>): Option<real> {
    if a.Some? && b.Some? then Some(a.value + b.value) else None
  }

  /** The `reduce` over the readings, from the left; one NaN makes the whole sum NaN. */
  function Sum(xs: seq<Option<real>>): Option<real> {
    if xs == [] then Some(0.0) else Plus(Sum(xs[..|xs| - 1]), xs[|xs| - 1])
  }

  function SumCredits(projects: seq<Project>): Option<real> {
    Sum(Readings(projects))
  }

  /** `Math.min(x, 6)` */
  function Capped(x: real): real {
    if x < ProjectCap then x else ProjectCap
  }

  /** `innovation.trim() !== '' ? 4 : 0` */
  function Bonus(innovation: string): real {
    if Trim(innovation) != "" then InnovationBonus else 0.0
  }

  /** `calculateTotalCredits`: the capped project sum plus the bonus; `None` is NaN. */
  function TotalCredits(projects: seq<Project>, innovation: string): Option<real> {
    match SumCredits(projects)
    case None => None
    case Some(s) => Some(Capped(s) + Bonus(innovation))
  }

  /** Every project's credits read as a number. */
  predicate AllReadable(projects: seq<Project>) {
    forall i :: 0 <= i < |projects| ==> CreditOf(projects[i]).Some?
  }

  /** Every project's credits read as a number that is not negative. */
  predicate AllNonNegative(projects: seq<Project>) {
    forall i :: 0 <= i < |projects| ==> CreditOf(projects[i]).Some? && CreditOf(projects[i]).value >= 0.0
  }

  /** A sum is a number exactly when every reading is. */
  lemma {:induction false} SumSomeIff(xs: seq<Option<real>>)
    ensures Sum(xs).Some? <==> forall i :: 0 <= i < |xs| ==> xs[i].Some?
    decreases |xs|
  {
    if xs != [] {
      var init := xs[..|xs| - 1];
      SumSomeIff(init);
      assert forall i :: 0 <= i < |init| ==> init[i] == xs[i];
    }
  }

  /** Non-negative readings add up to a non-negative sum. */
  lemma {:induction false} SumNonNegative(xs: seq<Option<real>>)
    requires forall i :: 0 <= i < |xs| ==> xs[i].Some? && xs[i].value >= 0.0
    ensures Sum(xs).Some? && Sum(xs).value >= 0.0
    decreases |xs|
  {
    if xs != [] {
      var init := xs[..|xs| - 1];
      assert forall i :: 0 <= i < |init| ==> init[i] == xs[i];
      SumNonNegative(init);
    }
  }

  /** Appending a project adds its credits to the sum. */
  lemma SumAppend(projects: seq<Project>, p: Project)
    ensures SumCredits(projects + [p]) == Plus(SumCredits(projects), CreditOf(p))
  {
    var xs := Readings(projects + [p]);
    assert xs[..|projects|] == Readings(projects);
  }

  /** The bonus is 4 exactly when the narrative holds a character that is not white space, and 0 otherwise. */
  lemma BonusSpec(innovation: string)
    ensures Bonus(innovation) == 4.0 <==> exists i :: 0 <= i < |innovation| && !IsSpace(innovation[i])
    ensures Bonus(innovation) == 0.0 <==> forall i :: 0 <= i < |innovation| ==> IsSpace(innovation[i])
  {
    TrimEmptyIffAllSpace(innovation);
  }

  /**
   * The total is a number exactly when every project's credits are; it never
   * exceeds 10, and it is not negative when no project's credits are.
   */
  lemma TotalCreditsBounds(projects: seq<Project>, innovation: string)
    ensures TotalCredits(projects, innovation).Some? <==> AllReadable(projects)
    ensures TotalCredits(projects, innovation).Some? ==> TotalCredits(projects, innovation).value <= 10.0
    ensures AllNonNegative(projects) ==>
              TotalCredits(projects, innovation).Some? && TotalCredits(projects, innovation).value >= 0.0
  {
    SumSomeIff(Readings(projects));
    if AllNonNegative(projects) {
      SumNonNegative(Readings(projects));
    }
  }

  /** Once the projects' credits reach 6, a further project with non-negative credits leaves the total unchanged. */
  lemma SaturatedTotal(projects: seq<Project>, p: Project, innovation: string)
    requires SumCredits(projects).Some? && SumCredits(projects).value >= ProjectCap
    requires CreditOf(p).Some? && CreditOf(p).value >= 0.0
    ensures TotalCredits(projects + [p], innovation) == TotalCredits(projects, innovation)
  {
    SumAppend(projects, p);
  }

  /** Replacing one reading by another number changes the sum by their difference. */
  lemma {:induction false} SumReplace(xs: seq<Option<real>>, k: nat, y: real)
    requires k < |xs| && Sum(xs).Some? && xs[k].Some?
    ensures Sum(xs[k := Some(y)]) == Some(Sum(xs).value + y - xs[k].value)
    decreases |xs|
  {
    var n := |xs| - 1;
    var init := xs[..n];
    var ys := xs[k := Some(y)];
    assert xs[n].Some? && Sum(init).Some?;
    if k == n {
      assert ys[..n] == init;
    } else {
      assert init[k] == xs[k];
      assert ys[..n] == init[k := Some(y)];
      SumReplace(init, k, y);
    }
  }

  /** Adding an empty project never changes the total. */
  lemma EmptyProjectAddsNothing(projects: seq<Project>, id: Id, innovation: string)
    ensures TotalCredits(projects + [EmptyProject(id)], innovation) == TotalCredits(projects, innovation)
  {
    SumAppend(projects, EmptyProject(id));
  }

  /** Four readings of 2 add up to 8. */
  lemma SumOfFourTwos(xs: seq<Option<real>>)
    requires xs == [Some(2.0), Some(2.0), Some(2.0), Some(2.0)]
    ensures Sum(xs) == Some(8.0)
  {
    var one, two, three := [Some(2.0)], [Some(2.0), Some(2.0)], [Some(2.0), Some(2.0), Some(2.0)];
    assert one[..0] == [];
    assert Sum(one) == Some(2.0);
    assert two[..1] == one;
    assert Sum(two) == Some(4.0);
    assert three[..2] == two;
    assert Sum(three) == Some(6.0);
    assert xs[..3] == three;
  }

  /** Four projects of 2 credits each (a sum of 8) and a narrative give min(8, 6) + 4 = 10. */
  lemma TotalCreditsExample(projects: seq<Project>, innovation: string)
    requires |projects| == 4 && forall i :: 0 <= i < 4 ==> CreditOf(projects[i]) == Some(2.0)
    requires Trim(innovation) != ""
    ensures TotalCredits(projects, innovation) == Some(10.0)
  {
    var xs := Readings(projects);
    assert xs == [Some(2.0), Some(2.0), Some(2.0), Some(2.0)];
    SumOfFourTwos(xs);
  }

  /** The text `2` reads as 2 credits. */
  lemma TwoCredits(p: Project)
    requires p.credits == ['2']
    ensures CreditOf(p) == Some(2.0)
  {
    DigitReadsBack('2');
  }

  // ---------------------------------------------------------------------------
  // The project list
  // ---------------------------------------------------------------------------

  function ProjectId(p: Project): nat {
    p.id
  }

  predicate UniqueIds(projects: seq<Project>) {
    UniqueKeys(projects, ProjectId)
  }

  function Edit(field: Field, value: string): Project -> Project {
    p => SetField(p, field, value)
  }

  /** `projects.map(project => project.id === id ? { ...project, [field]: value } : project)` */
  function UpdateProjects(projects: seq<Project>, id: Id, field: Field, value: string): seq<Project> {
    UpdateKey(projects, ProjectId, id, Edit(field, value))
  }

  /**
   * An edit keeps the length and the identities; addressed to an unknown
   * identity it changes nothing; with unique identities it replaces only the
   * addressed project; and an edit of any field but the credits keeps the total.
   */
  lemma EditSpec(projects: seq<Project>, id: Id, field: Field, value: string)
    ensures |UpdateProjects(projects, id, field, value)| == |projects|
    ensures !HasKey(projects, ProjectId, id) ==> UpdateProjects(projects, id, field, value) == projects
    ensures UniqueIds(projects) ==> UniqueIds(UpdateProjects(projects, id, field, value))
    ensures forall k :: UniqueIds(projects) && 0 <= k < |projects| && projects[k].id == id ==>
              UpdateProjects(projects, id, field, value) == projects[..k] + [SetField(projects[k], field, value)] + projects[k + 1..]
  {
    var f := Edit(field, value);
    if !HasKey(projects, ProjectId, id) {
      UpdateMissingKey(projects, ProjectId, id, f);
    }
    UpdateKeepsKeys(projects, ProjectId, id, f);
    forall k | UniqueIds(projects) && 0 <= k < |projects| && projects[k].id == id
      ensures UpdateProjects(projects, id, field, value) == projects[..k] + [SetField(projects[k], field, value)] + projects[k + 1..]
    {
      UpdateKeyAt(projects, ProjectId, k, f);
    }
  }

  /** Editing a field other than the credits leaves the total as it was. */
  lemma EditKeepsTotal(projects: seq<Project>, id: Id, field: Field, value: string, innovation: string)
    requires field != Credits
    ensures TotalCredits(UpdateProjects(projects, id, field, value), innovation) == TotalCredits(projects, innovation)
  {
    assert Readings(UpdateProjects(projects, id, field, value)) == Readings(projects);
  }

  /** The credits already reach 6 and `value` raises those of the project at `k`. */
  predicate RaisesSaturated(projects: seq<Project>, k: nat, value: string)
    requires k < |projects|
  {
    SumCredits(projects).Some? && SumCredits(projects).value >= ProjectCap &&
    CreditOf(projects[k]).Some? && CreditOf(SetField(projects[k], Credits, value)).Some? &&
    CreditOf(SetField(projects[k], Credits, value)).value >= CreditOf(projects[k]).value
  }

  /**
   * Once the projects' credits reach 6, raising the credits of one project
   * leaves the total unchanged.
   */
  lemma SaturatedCreditEdit(projects: seq<Project>, k: nat, value: string, innovation: string)
    requires UniqueIds(projects) && k < |projects| && RaisesSaturated(projects, k, value)
    ensures TotalCredits(UpdateProjects(projects, projects[k].id, Credits, value), innovation) == TotalCredits(projects, innovation)
  {
    var edited := SetField(projects[k], Credits, value);
    UpdateKeyAt(projects, ProjectId, k, Edit(Credits, value));
    ReadingsReplace(projects, k, edited);
    SumReplace(Readings(projects), k, CreditOf(edited).value);
  }

  /** The readings of a list with one project replaced are the old readings with one replaced. */
  lemma ReadingsReplace(projects: seq<Project>, k: nat, p: Project)
    requires k < |projects|
    ensures Readings(projects[..k] + [p] + projects[k + 1..]) == Readings(projects)[k := CreditOf(p)]
  {
    var replaced := projects[..k] + [p] + projects[k + 1..];
    assert forall i :: 0 <= i < |projects| ==> replaced[i] == if i == k then p else projects[i];
  }

  /** The state of the form: `projects`, `innovation`, `reportingOfficerOpinion` and `totalCredits`. */
  class GuidanceForm {
    var projects: seq<Project>
    var innovation: string
    var reportingOfficerOpinion: string
    var totalCredits: Option<real>

    /** The effect on `[projects, innovation]` keeps the total up to date with both. */
    ghost predicate Valid()
      reads this
    {
      UniqueIds(projects) && totalCredits == TotalCredits(projects, innovation)
    }

    /** No projects, blank texts, a total of 0. */
    constructor ()
      ensures Valid()
      ensures projects == [] && innovation == "" && reportingOfficerOpinion == "" && totalCredits == Some(0.0)
    {
      projects := [];
      innovation := "";
      reportingOfficerOpinion := "";
      totalCredits := Some(0.0);
    }

    /** `calculateTotalCredits`, run by the effect after `projects` or `innovation` changes. */
    method CalculateTotalCredits()
      modifies this
      ensures totalCredits == TotalCredits(projects, innovation)
      ensures projects == old(projects) && innovation == old(innovation)
      ensures reportingOfficerOpinion == old(reportingOfficerOpinion)
    {
      totalCredits := TotalCredits(projects, innovation);
    }

    /** `addProject` with a fresh identity: the total does not move. */
    method AddProject(id: Id)
      requires Valid() && !HasKey(projects, ProjectId, id)
      modifies this
      ensures Valid()
      ensures projects == old(projects) + [EmptyProject(id)]
      ensures innovation == old(innovation) && reportingOfficerOpinion == old(reportingOfficerOpinion)
      ensures totalCredits == old(totalCredits)
    {
      EmptyProjectAddsNothing(projects, id, innovation);
      projects := projects + [EmptyProject(id)];
      CalculateTotalCredits();
    }

    /** `handleProjectChange(id, field, value)` followed by the effect. */
    method HandleProjectChange(id: Id, field: Field, value: string)
      requires Valid()
      modifies this
      ensures Valid()
      ensures projects == UpdateProjects(old(projects), id, field, value)
      ensures innovation == old(innovation) && reportingOfficerOpinion == old(reportingOfficerOpinion)
      ensures field != Credits ==> totalCredits == old(totalCredits)
      ensures forall k :: (0 <= k < |old(projects)| && old(projects)[k].id == id && field == Credits &&
                           RaisesSaturated(old(projects), k, value)) ==> totalCredits == old(totalCredits)
    {
      EditSpec(projects, id, field, value);
      if field != Credits {
        EditKeepsTotal(projects, id, field, value, innovation);
      }
      forall k | 0 <= k < |projects| && projects[k].id == id && field == Credits && RaisesSaturated(projects, k, value)
        ensures TotalCredits(UpdateProjects(projects, id, field, value), innovation) == TotalCredits(projects, innovation)
      {
        SaturatedCreditEdit(projects, k, value, innovation);
      }
      projects := UpdateProjects(projects, id, field, value);
      CalculateTotalCredits();
    }

    /** `setInnovation(value)` followed by the effect. */
    method SetInnovation(value: string)
      requires Valid()
      modifies this
      ensures Valid()
      ensures innovation == value
      ensures projects == old(projects) && reportingOfficerOpinion == old(reportingOfficerOpinion)
    {
      innovation := value;
      CalculateTotalCredits();
    }

    /** `setReportingOfficerOpinion(value)`: not watched by the effect, and the total does not depend on it. */
    method SetReportingOfficerOpinion(value: string)
      requires Valid()
      modifies this
      ensures Valid()
      ensures reportingOfficerOpinion == value
      ensures projects == old(projects) && innovation == old(innovation) && totalCredits == old(totalCredits)
    {
      reportingOfficerOpinion := value;
    }
  }
}
