/** Scheduler states as text, and which of them end a job. */
module JobStates {

  const TERMINAL_STATES: set<string> :=
    {"COMPLETED", "FAILED", "TIMEOUT", "CANCELLED", "CANCELED", "NODE_FAIL", "OUT_OF_MEMORY", "PREEMPTED",
     "BOOT_FAIL", "DEADLINE"}

  const UNKNOWN := "UNKNOWN"

  function UpperChar(c: char): char {
    if 'a' <= c <= 'z' then (c as int - 32) as char else c
  }

  function Upper(s: string): string {
    seq(|s|, i requires 0 <= i < |s| => UpperChar(s[i]))
  }

  /** The ledger's test, which ignores case. */
  predicate IsTerminal(state: string) {
    Upper(state) in TERMINAL_STATES
  }

  function StateOr(state: string): string {
    if state == "" then UNKNOWN else state
  }

  /** A state on which the case-insensitive and the exact terminal test agree. */
  predicate PlainCase(state: string) {
    IsTerminal(state) <==> state in TERMINAL_STATES
  }

  /** The states that end a job, whatever happened to it. */
  lemma EndedStatesAre(state: string)
    ensures state in TERMINAL_STATES <==>
              || state == "COMPLETED" || state == "FAILED" || state == "TIMEOUT"
              || state == "CANCELLED" || state == "CANCELED" || state == "PREEMPTED"
              || state == "NODE_FAIL" || state == "BOOT_FAIL" || state == "OUT_OF_MEMORY" || state == "DEADLINE"
  {
  }

  lemma UpperFixes(s: string)
    requires forall c <- s :: !('a' <= c <= 'z')
    ensures Upper(s) == s
  {
    forall i | 0 <= i < |s| ensures UpperChar(s[i]) == s[i] {
      assert s[i] in s;
    }
  }

  lemma TerminalNamesAreTerminal(state: string)
    requires state in TERMINAL_STATES
    ensures IsTerminal(state)
  {
    UpperFixes(state);
  }

  lemma UnknownIsNotTerminal()
    ensures !IsTerminal(UNKNOWN)
  {
    UpperFixes(UNKNOWN);
  }

  lemma RunningIsLive()
    ensures !IsTerminal("RUNNING")
  {
    UpperFixes("RUNNING");
  }

  lemma LowerCaseEnds()
    ensures IsTerminal("completed") && "completed" !in TERMINAL_STATES
  {
    assert Upper("completed") == "COMPLETED";
  }
}
