/**
 * report.py: the CSV report. A header row, then one row per change in the
 * order given: a removed file is attributed "File Deleted" without asking any
 * source; every other change is attributed by the checker.
 */
module Report {
  import opened Wrappers
  import opened Env
  import opened Results
  import opened Compare
  import opened Provenance

  type Row = seq<string>

  const Header: Row := ["File", "Changes", "Source", "Additional Info"]

  /**
   * The row of one change, or the exception `find_provenance` raised for it
   * (the row is then never written).
   */
  function RowFor(env: Environment, models: seq<SourceModel>, c: FileChange, text: TextDiff): (r: Outcome<Row>)
    requires Readable(c)
    ensures c.kind == Removed ==> r == Ok([c.path, "File Removed", "File Deleted", ""])
    ensures c.kind != Removed ==>
      match Resolve(env, models, c.path)
      case Err(e) => r == Err(e)
      case Ok(found) => r == Ok([c.path, Modifications(c, text), found.provenanceType, found.additionalInfo])
  {
    if c.kind == Removed then Ok([c.path, Modifications(c, text), "File Deleted", ""])
    else match Resolve(env, models, c.path)
      case Err(e) => Err(e)
      case Ok(found) => Ok([c.path, Modifications(c, text), found.provenanceType, found.additionalInfo])
  }

  /** The rows written after the header, and the exception that ended the loop, if any. */
  datatype Written = Written(rows: seq<Row>, error: Option<Error>)

  /** The `report_changes` loop over the changes so far. */
  function Rows(env: Environment, models: seq<SourceModel>, changes: seq<FileChange>, text: TextDiff): Written
    requires forall c :: c in changes ==> Readable(c)
  {
    if changes == [] then Written([], None)
    else
      var before := Rows(env, models, changes[..|changes| - 1], text);
      if before.error.Some? then before
      else match RowFor(env, models, changes[|changes| - 1], text)
        case Err(e) => Written(before.rows, Some(e))
        case Ok(row) => Written(before.rows + [row], None)
  }

  /**
   * Exactly one row per change, in the order of the changes, until a change
   * whose attribution raised: the rows before it are kept, and nothing follows.
   */
  lemma {:induction false} RowsMeaning(env: Environment, models: seq<SourceModel>, changes: seq<FileChange>, text: TextDiff)
    requires forall c :: c in changes ==> Readable(c)
    ensures var w := Rows(env, models, changes, text);
      && |w.rows| <= |changes|
      && (forall i :: 0 <= i < |w.rows| ==> RowFor(env, models, changes[i], text) == Ok(w.rows[i]))
      && (w.error.None? ==> |w.rows| == |changes|)
      && (w.error.Some? ==>
            |w.rows| < |changes| && RowFor(env, models, changes[|w.rows|], text) == Err(w.error.value))
  {
    if changes != [] {
      var init := changes[..|changes| - 1];
      RowsMeaning(env, models, init, text);
    }
  }

  /**
   * Removed files never reach the checker: a report of removals only never
   * raises and is the same whatever the sources are.
   */
  lemma {:induction false} RemovedNeverResolved(env: Environment, models: seq<SourceModel>, other: seq<SourceModel>,
                                                changes: seq<FileChange>, text: TextDiff)
    requires forall c :: c in changes ==> c.kind == Removed
    ensures forall c :: c in changes ==> Readable(c)
    ensures Rows(env, models, changes, text).error.None?
    ensures Rows(env, models, changes, text) == Rows(env, other, changes, text)
  {
    if changes != [] {
      var init := changes[..|changes| - 1];
      assert forall c :: c in init ==> c in changes;
      RemovedNeverResolved(env, models, other, init, text);
    }
  }

  /** A record `compare` produced can be described: a modified path is in both snapshots. */
  lemma DiffReadable(changes: seq<FileChange>, oldRoot: Snapshot, newRoot: Snapshot)
    requires IsDiff(changes, oldRoot, newRoot)
    ensures forall c :: c in changes ==> Readable(c)
  {
    forall c | c in changes ensures Readable(c) {
      assert ChangeAt(oldRoot, newRoot, c.path) == Some(c.kind);
    }
  }

  /**
   * The report of a comparison with no raising source has the header and one
   * row per changed path of the two snapshots.
   */
  lemma ReportOfDiff(env: Environment, models: seq<SourceModel>, changes: seq<FileChange>,
                     oldRoot: Snapshot, newRoot: Snapshot, text: TextDiff)
    requires IsDiff(changes, oldRoot, newRoot)
    ensures forall c :: c in changes ==> Readable(c)
    ensures Rows(env, models, changes, text).error.None? ==>
      |[Header] + Rows(env, models, changes, text).rows| == 1 + |ChangedPaths(oldRoot, newRoot)|
  {
    DiffReadable(changes, oldRoot, newRoot);
    RowsMeaning(env, models, changes, text);
    DiffLength(changes, oldRoot, newRoot);
  }

  /**
   * `report_changes`: write the header, then the row of each change; the
   * checker is asked only for changes that are not removals. The rows are
   * returned instead of written to a file.
   */
  method ReportChanges(checker: ProvenanceChecker, changes: seq<FileChange>, text: TextDiff)
    returns (rows: seq<Row>, error: Option<Error>)
    requires checker.Valid()
    requires forall c :: c in changes ==> Readable(c)
    modifies checker.Plugins()
    ensures checker.Valid() && checker.Models() == old(checker.Models())
    ensures rows == [Header] + Rows(checker.env, checker.Models(), changes, text).rows
    ensures error == Rows(checker.env, checker.Models(), changes, text).error
  {
    ghost var models := checker.Models();
    rows := [Header];
    var i := 0;
    while i < |changes|
      invariant 0 <= i <= |changes|
      invariant checker.Valid() && checker.Models() == models
      invariant Rows(checker.env, models, changes[..i], text).error.None?
      invariant rows == [Header] + Rows(checker.env, models, changes[..i], text).rows
    {
      RowsStep(checker.env, models, changes, i, text);
      var row := ReportRow(checker, changes[i], text);
      if row.Err? {
        RowsStopAt(checker.env, models, changes, i, text);
        return rows, Some(row.error);
      }
      rows := rows + [row.value];
      i := i + 1;
    }
    assert changes[..i] == changes;
    error := None;
  }

  /** The row of one change: a removal is written at once, anything else after asking the checker. */
  method ReportRow(checker: ProvenanceChecker, change: FileChange, text: TextDiff) returns (row: Outcome<Row>)
    requires checker.Valid() && Readable(change)
    modifies checker.Plugins()
    ensures checker.Valid() && checker.Models() == old(checker.Models())
    ensures row == RowFor(checker.env, checker.Models(), change, text)
    ensures change.kind == Removed ==> unchanged(checker.Plugins())
  {
    if change.kind == Removed {
      return Ok([change.path, Modifications(change, text), "File Deleted", ""]);
    }
    var source := checker.FindProvenance(change.path);
    if source.Err? {
      return Err(source.error);
    }
    row := Ok([change.path, Modifications(change, text), source.value.provenanceType, source.value.additionalInfo]);
  }

  /** One more change of the loop: the rows up to and including position `i`. */
  lemma RowsStep(env: Environment, models: seq<SourceModel>, changes: seq<FileChange>, i: nat, text: TextDiff)
    requires i < |changes| && forall c :: c in changes ==> Readable(c)
    ensures forall c :: c in changes[..i] ==> Readable(c)
    ensures forall c :: c in changes[..i + 1] ==> Readable(c)
    ensures var before := Rows(env, models, changes[..i], text);
      Rows(env, models, changes[..i + 1], text) ==
        if before.error.Some? then before
        else match RowFor(env, models, changes[i], text)
          case Err(e) => Written(before.rows, Some(e))
          case Ok(row) => Written(before.rows + [row], None)
  {
    assert changes[..i + 1][..i] == changes[..i];
    assert changes[..i + 1][i] == changes[i];
  }

  /** A raise at position `i` ends the report there. */
  lemma RowsStopAt(env: Environment, models: seq<SourceModel>, changes: seq<FileChange>, i: nat, text: TextDiff)
    requires i < |changes| && forall c :: c in changes ==> Readable(c)
    requires forall c :: c in changes[..i + 1] ==> Readable(c)
    requires Rows(env, models, changes[..i + 1], text).error.Some?
    ensures Rows(env, models, changes, text) == Rows(env, models, changes[..i + 1], text)
  {
    assert changes[..i + 1] + changes[i + 1..] == changes;
    RowsStop(env, models, changes[..i + 1], changes[i + 1..], text);
  }

  /** Once a row has raised, later changes add nothing. */
  lemma {:induction false} RowsStop(env: Environment, models: seq<SourceModel>, changes: seq<FileChange>,
                                    more: seq<FileChange>, text: TextDiff)
    requires forall c :: c in changes + more ==> Readable(c)
    requires forall c :: c in changes ==> Readable(c)
    requires Rows(env, models, changes, text).error.Some?
    ensures Rows(env, models, changes + more, text) == Rows(env, models, changes, text)
    decreases |more|
  {
    if more != [] {
      var init := more[..|more| - 1];
      assert (changes + more)[..|changes + more| - 1] == changes + init;
      assert forall c :: c in changes + init ==> c in changes + more;
      RowsStop(env, models, changes, init, text);
    } else {
      assert changes + more == changes;
    }
  }
}
