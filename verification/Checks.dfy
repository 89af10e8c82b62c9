/** A call that makes several checks in a fixed order and refuses at the first that does not pass. Operations are
    compared with such a list to say when they go through and which refusal they give. */
module Checks {
  import opened Options

  datatype Check<E> = Check(passes: bool, refusal: E)

  predicate FailsFirst<E>(checks: seq<Check<E>>, k: nat) {
    k < |checks| && !checks[k].passes && forall j | 0 <= j < k :: checks[j].passes
  }

  /** No refusal if and only if every check passes; else the refusal is that of the first that does not. */
  ghost predicate AnswersTo<E>(checks: seq<Check<E>>, refusal: Option<E>) {
    && (refusal.None? <==> forall i | 0 <= i < |checks| :: checks[i].passes)
    && (refusal.Some? ==> exists k: nat :: FailsFirst(checks, k) && checks[k].refusal == refusal.value)
  }

  lemma FirstFailing<E>(checks: seq<Check<E>>) returns (k: nat)
    ensures k <= |checks| && (forall j | 0 <= j < k :: checks[j].passes)
    ensures k < |checks| ==> FailsFirst(checks, k)
  {
    k := 0;
    while k < |checks| && checks[k].passes
      invariant k <= |checks| && forall j | 0 <= j < k :: checks[j].passes
    {
      k := k + 1;
    }
  }
}
