/**
 Fencing tokens (src/control/coordination.ts): strings whose last `:` segment is a version.
 */
module Fencing {
  import opened Wrappers
  import Decimal

  function ExecutorToken(executorId: string, generation: nat): string {
    "exec:" + executorId + ":" + Decimal.Print(generation)
  }

  function LeaseToken(leaseKey: string, ownerId: string, version: nat): string {
    "lease:" + leaseKey + ":" + ownerId + ":" + Decimal.Print(version)
  }

  function AssignmentToken(workerId: string, executorId: string, version: nat): string {
    "worker:" + workerId + ":" + executorId + ":" + Decimal.Print(version)
  }

  /** The text after the last `:`; the whole text when there is none. */
  function LastSegment(token: string): string {
    if token == [] || token[|token| - 1] == ':' then []
    else LastSegment(token[..|token| - 1]) + [token[|token| - 1]]
  }

  function TokenVersion(token: string): int {
    match Decimal.ParseInt(LastSegment(token))
    case Some(version) => version
    case None => -1
  }

  function Compare(left: Option<string>, right: Option<string>): int {
    if left == right then 0
    else if left.None? then -1
    else if right.None? then 1
    else TokenVersion(left.value) - TokenVersion(right.value)
  }

  lemma {:induction false} LastSegmentAfterColon(prefix: string, segment: string)
    requires ':' !in segment
    ensures LastSegment(prefix + ":" + segment) == segment
  {
    var token := prefix + ":" + segment;
    if segment != [] {
      var init := segment[..|segment| - 1];
      LastSegmentAfterColon(prefix, init);
      assert token[..|token| - 1] == prefix + ":" + init;
      assert segment == init + [segment[|segment| - 1]];
    }
  }

  /** Print-then-parse recovers the version whatever the text before it is, colons included. */
  lemma VersionRecovered(prefix: string, version: nat)
    ensures TokenVersion(prefix + ":" + Decimal.Print(version)) == version
  {
    Decimal.PrintIsDigits(version);
    LastSegmentAfterColon(prefix, Decimal.Print(version));
    Decimal.ParsePrint(version);
  }

  lemma AssignmentTokenVersion(workerId: string, executorId: string, version: nat)
    ensures TokenVersion(AssignmentToken(workerId, executorId, version)) == version
  {
    VersionRecovered("worker:" + workerId + ":" + executorId, version);
  }

  lemma LeaseTokenVersion(leaseKey: string, ownerId: string, version: nat)
    ensures TokenVersion(LeaseToken(leaseKey, ownerId, version)) == version
  {
    VersionRecovered("lease:" + leaseKey + ":" + ownerId, version);
  }

  lemma ExecutorTokenVersion(executorId: string, generation: nat)
    ensures TokenVersion(ExecutorToken(executorId, generation)) == generation
  {
    VersionRecovered("exec:" + executorId, generation);
  }

  /** Comparing the other way round gives the opposite, and no token comes before any. */
  lemma CompareIsAntisymmetric(left: Option<string>, right: Option<string>)
    ensures Compare(left, right) == -Compare(right, left)
    ensures left.None? && right.Some? ==> Compare(left, right) < 0
  {
  }

  /** Comparison of assignment tokens is comparison of versions, for any two workers and executors. */
  lemma CompareAssignmentTokens(w: string, e: string, v: nat, w': string, e': string, v': nat)
    ensures Compare(Some(AssignmentToken(w, e, v)), Some(AssignmentToken(w', e', v'))) == v - v'
  {
    AssignmentTokenVersion(w, e, v);
    AssignmentTokenVersion(w', e', v');
  }
}
