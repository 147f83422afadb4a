/** Which identities and measures are accepted, rule by rule, and what a carrier may leave out. */
module IdentityRules {
  import opened Prelude
  import opened Identity
  import opened ToolOperation
  import Text

  // ----- identifiers -----------------------------------------------------------------------------

  predicate Letter(c: char) { 'a' <= c <= 'z' || 'A' <= c <= 'Z' || '0' <= c <= '9' }

  /** One to 128 characters, each a letter, a digit or one of `._:/-`, the first a letter or a digit. */
  lemma IdentifierIff(s: string)
    ensures IsIdentifier(s) <==>
              && 1 <= |s| <= 128 && Letter(s[0])
              && forall c :: c in s ==> Letter(c) || c in "._:/-"
  {
    assert "._:/-" == ['.', '_', ':', '/', '-'];
    forall c ensures Text.IsIdentifierChar(c) <==> Letter(c) || c in "._:/-" {}
  }

  // ----- identities ------------------------------------------------------------------------------

  lemma {:induction false} DistinctIff(s: seq<string>)
    ensures Distinct(s) <==> |set d | d in s| == |s|
    ensures |set d | d in s| <= |s|
  {
    if s != [] {
      DistinctIff(s[1..]);
      var rest := set d | d in s[1..];
      assert (set d | d in s) == {s[0]} + rest by { assert s == [s[0]] + s[1..]; }
      if s[0] in rest {
        assert {s[0]} + rest == rest;
        var j :| 0 <= j < |s[1..]| && s[1..][j] == s[0];
        assert s[j + 1] == s[0];
      } else {
        DistinctTail(s);
      }
    }
  }

  lemma DistinctTail(s: seq<string>)
    requires s != [] && s[0] !in s[1..]
    ensures Distinct(s) <==> Distinct(s[1..])
  {
    if Distinct(s[1..]) {
      forall i, j | 0 <= i < j < |s| ensures s[i] != s[j] {
        if i == 0 { assert s[1..][j - 1] == s[j]; } else { assert s[1..][i - 1] != s[1..][j - 1]; }
      }
    }
  }

  /** What a header contributes: its name and its value, and nothing when it is not sent. */
  function Sent(name: string, value: Option<string>): nat {
    if value.None? then 0 else |name| + |value.value|
  }

  function SentField(id: WorkflowIdentity, k: Key): nat { Sent(HeaderName(k), HeaderText(id, k)) }

  lemma LastHeaderBytes(id: WorkflowIdentity)
    ensures HeaderBytes(id, HEADER_FIELDS[4..])
            == SentField(id, StepRunId) + SentField(id, ParentStepRunId)
               + SentField(id, Dependencies) + SentField(id, Attempt)
  {
    assert HEADER_FIELDS[8..] == [];
    assert HeaderBytes(id, []) == 0;
    hide HeaderBytes, SentField;
    HeaderBytesFrom(id, 4);
    HeaderBytesFrom(id, 5);
    HeaderBytesFrom(id, 6);
    HeaderBytesFrom(id, 7);
  }

  /** The size of the headers is that of all eight, name and value. */
  lemma HeaderBytesAre(id: WorkflowIdentity)
    ensures HeaderBytes(id, HEADER_FIELDS)
            == SentField(id, TaskId) + SentField(id, Workflow) + SentField(id, WorkflowVersion)
               + SentField(id, Step) + SentField(id, StepRunId) + SentField(id, ParentStepRunId)
               + SentField(id, Dependencies) + SentField(id, Attempt)
  {
    hide HeaderBytes, SentField;
    assert HEADER_FIELDS[0..] == HEADER_FIELDS;
    HeaderBytesFrom(id, 0);
    HeaderBytesFrom(id, 1);
    HeaderBytesFrom(id, 2);
    HeaderBytesFrom(id, 3);
    LastHeaderBytes(id);
  }

  lemma HeaderBytesFrom(id: WorkflowIdentity, i: nat)
    requires i < |HEADER_FIELDS|
    ensures HeaderBytes(id, HEADER_FIELDS[i..])
            == SentField(id, HEADER_FIELDS[i]) + HeaderBytes(id, HEADER_FIELDS[i + 1..])
  {
    hide HeaderName, HeaderText;
    assert HEADER_FIELDS[i..][1..] == HEADER_FIELDS[i + 1..];
  }

  /** The rules of an identity: six identifiers and up to 32 dependencies, none twice and none the run
      itself, a positive attempt, and headers of at most 4096 bytes. */
  lemma ValidIff(id: WorkflowIdentity)
    ensures Valid(id) <==>
              && (forall s :: s in {id.taskId, id.workflow, id.workflowVersion, id.step, id.stepRunId} ==>
                    IsIdentifier(s))
              && (forall p :: id.parent == Some(p) ==> IsIdentifier(p))
              && (forall d :: d in id.dependencies ==> IsIdentifier(d) && d != id.stepRunId)
              && |id.dependencies| <= 32 && |set d | d in id.dependencies| == |id.dependencies|
              && id.attempt > 0 && HeaderBytes(id, HEADER_FIELDS) <= 4096
  {
    hide IsIdentifier, HeaderBytes, Distinct;
    DistinctIff(id.dependencies);
  }

  // ----- what a carrier may leave out ------------------------------------------------------------

  /** A carrier needs its five identifiers and no more: what it leaves out is no parent, no dependencies
      and a first attempt. */
  lemma MinimalCarrier(id: WorkflowIdentity)
    requires Valid(id) && id.parent.None? && id.dependencies == [] && id.attempt == 1
    ensures FromCarrier(Restrict(Carrier(id), REQUIRED)) == Some(id)
  {
    var c := Restrict(Carrier(id), REQUIRED);
    assert c.Keys == REQUIRED;
    Rebuilt(id);
    hide Construct, Valid;
    assert Values([]) == [];
  }

  /** A carrier is refused if it lacks one of the five or has a key of another name. */
  lemma CarrierKeysIff(c: map<Key, Value>)
    requires FromCarrier(c).Some?
    ensures {TaskId, Workflow, WorkflowVersion, Step, StepRunId} <= c.Keys
    ensures c.Keys <= {TaskId, Workflow, WorkflowVersion, Step, StepRunId, ParentStepRunId, Dependencies, Attempt}
  {
    hide Construct;
  }

  // ----- measures --------------------------------------------------------------------------------

  /** The amount a number stands for, when it is finite. */
  function Amount(n: Number): Option<real> {
    match n
    case Whole(i) => Some(i as real)
    case Fraction(r) => Some(r)
    case NotFinite => None
  }

  /** A latency or a cost is a finite number that is not negative. */
  lemma MeasureIff(n: Number)
    ensures IsMeasure(n) <==> Amount(n).Some? && 0.0 <= Amount(n).value
  {
  }
}
