/**
 * The small state machine every writer of the data repository runs:
 * begin, prepare, exec, commit. A failure at prepare, exec or commit is
 * followed by a rollback, and a rollback that fails replaces the error of
 * the step that triggered it. Whether each step fails is decided by the
 * store, so it is an input here.
 */
module Transaction {
  import opened Wrappers

  /** The step whose error a writer returns; `Rollback` when the rollback itself failed. */
  datatype Step = Begin | Prepare | Exec | Commit | Rollback

  /** For each step, whether the store makes it fail if it is attempted. */
  datatype TxFaults = TxFaults(begin: bool, prepare: bool, exec: bool, commit: bool, rollback: bool)

  /** The first of begin, prepare, exec and commit to fail; the later ones are never attempted. */
  function FirstFailure(f: TxFaults): (r: Option<Step>)
  {
    if f.begin then Some(Begin)
    else if f.prepare then Some(Prepare)
    else if f.exec then Some(Exec)
    else if f.commit then Some(Commit)
    else None
  }

  /** The step whose error the writer returns, None when it commits. */
  function Reported(f: TxFaults): (r: Option<Step>)
    // a writer succeeds exactly when no step fails; the rollback outcome is then irrelevant
    ensures r.None? <==> !f.begin && !f.prepare && !f.exec && !f.commit
    // a begin failure is returned as it is: no rollback is attempted
    ensures r == Some(Begin) <==> f.begin
    // a failed rollback after prepare, exec or commit is what is returned
    ensures r == Some(Rollback) <==> !f.begin && f.rollback && (f.prepare || f.exec || f.commit)
    // otherwise the failing step's own error is returned
    ensures r.Some? && r != Some(Rollback) ==> r == FirstFailure(f)
  {
    match FirstFailure(f)
    case None => None
    case Some(Begin) => Some(Begin)
    case Some(s) => if f.rollback then Some(Rollback) else Some(s)
  }
}
