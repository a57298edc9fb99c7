/** Small declarations shared by every module. */
module Common {
  datatype Option<+T> = None | Some(value: T)

  /** Why a gate was closed without running what it held. */
  datatype Closing = GateMissing | DeniedByHuman(who: string) | NotInTime | PolicyGone | PolicyReplaced

  /** The message of a result, a record or a revert outcome: the fixed texts by name, anything a
      plugin says verbatim. */
  datatype Message =
    | Said(text: string)
    | NotRegistered
    | NotSucceeded
    | NotReversible
    | UndoDone
    | NotRun(closing: Closing)

  function Max(a: int, b: int): int {
    if a < b then b else a
  }

  lemma SubsetSize<T>(a: set<T>, b: set<T>)
    requires a <= b
    ensures |a| <= |b|
  {
    assert b == a + (b - a);
  }
}
