/**
 * Plan steps as the builder page keeps them. The parser that produces them
 * (`parseXml` in frontend/src/steps) is not part of this model: parsed steps
 * are inputs.
 */
module Plan {
  import opened Wrappers

  /** The step types; only `CreateFile` is acted on by the file-tree builder. */
  datatype StepKind = CreateFile | RunScript | OtherKind(tag: string)

  datatype Status = Pending | InProgress | Completed

  /** One step of a plan: `{id, title, type, status, path?, code?}`. */
  datatype Step = Step(id: int, title: string, kind: StepKind, status: Status,
                       path: Option<string>, code: Option<string>)

  /** `steps.filter(({status}) => status === "pending")`: the pending steps, in order. */
  function PendingSteps(steps: seq<Step>): (r: seq<Step>)
    ensures |r| <= |steps|
    ensures forall i :: 0 <= i < |r| ==> r[i].status == Pending
  {
    if steps == [] then []
    else if steps[0].status == Pending then [steps[0]] + PendingSteps(steps[1..])
    else PendingSteps(steps[1..])
  }

  /** `steps.map(s => ({...s, status}))`: every step gets `status`, nothing else changes. */
  function WithStatus(steps: seq<Step>, status: Status): (r: seq<Step>)
    ensures |r| == |steps|
    ensures forall i :: 0 <= i < |r| ==> r[i].status == status
    ensures forall i :: 0 <= i < |r| ==> r[i].(status := steps[i].status) == steps[i]
  {
    seq(|steps|, i requires 0 <= i < |steps| => steps[i].(status := status))
  }

  /** Setting a status twice is setting the second one. */
  lemma WithStatusTwice(steps: seq<Step>, first: Status, second: Status)
    ensures WithStatus(WithStatus(steps, first), second) == WithStatus(steps, second)
  {
    var r := WithStatus(WithStatus(steps, first), second);
    forall i | 0 <= i < |steps| ensures r[i] == steps[i].(status := second) {
      assert WithStatus(steps, first)[i] == steps[i].(status := first);
    }
  }

  /*** Properties of the filter ***/

  /** A step is among the pending steps exactly when it is one of the steps and is pending. */
  lemma {:induction false} PendingStepsMembers(steps: seq<Step>, s: Step)
    ensures s in PendingSteps(steps) <==> s in steps && s.status == Pending
  {
    if steps != [] {
      PendingStepsMembers(steps[1..], s);
      assert steps == [steps[0]] + steps[1..];
    }
  }

  /** One step is kept exactly when it is pending. */
  lemma PendingStepsOne(s: Step)
    ensures PendingSteps([s]) == if s.status == Pending then [s] else []
  {
    assert [s][1..] == [];
  }

  /** Filtering distributes over concatenation, so the pending steps keep their order and their repetitions. */
  lemma {:induction false} PendingStepsConcat(a: seq<Step>, b: seq<Step>)
    ensures PendingSteps(a + b) == PendingSteps(a) + PendingSteps(b)
  {
    if a == [] {
      assert a + b == b;
    } else {
      var rest := PendingSteps(a[1..]);
      assert (a + b)[0] == a[0];
      assert (a + b)[1..] == a[1..] + b;
      PendingStepsConcat(a[1..], b);
      if a[0].status == Pending {
        assert PendingSteps(a) == [a[0]] + rest;
        assert [a[0]] + (rest + PendingSteps(b)) == ([a[0]] + rest) + PendingSteps(b);
      } else {
        assert PendingSteps(a) == rest;
      }
    }
  }

  /** Steps none of which is pending filter to nothing. */
  lemma {:induction false} NonePending(steps: seq<Step>)
    requires forall i :: 0 <= i < |steps| ==> steps[i].status != Pending
    ensures PendingSteps(steps) == []
  {
    if steps != [] {
      NonePending(steps[1..]);
    }
  }

  /** After steps that have all been completed, only the appended pending steps are pending. */
  lemma CompletedThenPending(done: seq<Step>, added: seq<Step>)
    ensures PendingSteps(WithStatus(done, Completed) + WithStatus(added, Pending)) == WithStatus(added, Pending)
  {
    PendingStepsConcat(WithStatus(done, Completed), WithStatus(added, Pending));
    NonePending(WithStatus(done, Completed));
    AllPending(WithStatus(added, Pending));
  }

  /** Steps that are all pending filter to themselves. */
  lemma {:induction false} AllPending(steps: seq<Step>)
    requires forall i :: 0 <= i < |steps| ==> steps[i].status == Pending
    ensures PendingSteps(steps) == steps
  {
    if steps != [] {
      AllPending(steps[1..]);
      assert [steps[0]] + steps[1..] == steps;
    }
  }
}
