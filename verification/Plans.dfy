/**
 The closed company-plan schema: what the CEO agent proposes, the user confirms and
 the orchestration turns into tasks.
 */
module Plans {

  datatype Strategy = IndependentDrafts | SectionPartition | PrimaryWithPeerReview | SequentialRefinement

  datatype ExternalWrite = ExternalWrite(target: string, action: string, expectedEffect: string)

  datatype Deliverable = Deliverable(
    artifactType: string,
    strategy: Strategy,
    reviewRounds: int,
    contributors: seq<string>,
    reviewers: seq<string>)

  datatype DepartmentPlan = DepartmentPlan(
    localRef: string,
    departmentId: string,
    temporaryAssignment: bool,
    objective: string,
    dependencyRefs: seq<string>,
    deliverables: seq<Deliverable>,
    acceptanceCriteria: seq<string>,
    requiredTags: seq<string>,
    externalWrites: seq<ExternalWrite>)

  /** The characters Python's `str.strip` removes. */
  predicate IsSpace(c: char) {
    var n := c as int;
    || 9 <= n <= 13 || 28 <= n <= 32 || n == 0x85 || n == 0xA0 || n == 0x1680
    || 0x2000 <= n <= 0x200A || n == 0x2028 || n == 0x2029 || n == 0x202F || n == 0x205F || n == 0x3000
  }

  /** `not s.strip()` */
  predicate Blank(s: string) {
    forall i :: 0 <= i < |s| ==> IsSpace(s[i])
  }

  /** `s == s.strip()` */
  predicate Trimmed(s: string) {
    s != [] ==> !IsSpace(s[0]) && !IsSpace(s[|s| - 1])
  }

  function StripLeft(s: string): string {
    if s != [] && IsSpace(s[0]) then StripLeft(s[1..]) else s
  }

  function StripRight(s: string): string {
    if s != [] && IsSpace(s[|s| - 1]) then StripRight(s[..|s| - 1]) else s
  }

  /** `str.strip` */
  function Strip(s: string): string {
    StripRight(StripLeft(s))
  }

  lemma {:induction false} StripLeftMeaning(s: string)
    ensures if s == [] || !IsSpace(s[0]) then StripLeft(s) == s else |StripLeft(s)| < |s|
    ensures StripLeft(s) == [] <==> Blank(s)
    ensures StripLeft(s) != [] ==> !IsSpace(StripLeft(s)[0])
  {
    if s != [] && IsSpace(s[0]) {
      StripLeftMeaning(s[1..]);
      assert s == [s[0]] + s[1..];
    }
  }

  lemma {:induction false} StripRightMeaning(s: string)
    ensures if s == [] || !IsSpace(s[|s| - 1]) then StripRight(s) == s else |StripRight(s)| < |s|
    ensures StripRight(s) == [] <==> Blank(s)
  {
    if s != [] && IsSpace(s[|s| - 1]) {
      StripRightMeaning(s[..|s| - 1]);
      assert s == s[..|s| - 1] + [s[|s| - 1]];
    }
  }

  /** A text is blank exactly when stripping leaves nothing, and trimmed exactly when it leaves everything. */
  lemma {:induction false} StripMeaning(s: string)
    ensures Blank(s) <==> Strip(s) == []
    ensures Trimmed(s) <==> Strip(s) == s
  {
    StripLeftMeaning(s);
    StripRightMeaning(StripLeft(s));
  }
}
