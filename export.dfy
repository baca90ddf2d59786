/**
 * The life cycle of `downloadPDF` around the rendering work: the module-level
 * `exporting` flag that lets only one export run at a time (in the quote and
 * invoice scripts that have it), the saved file, the off-screen sandbox that
 * is removed only when the export succeeds, and the alert on failure.
 * Rendering, slicing and naming are modelled in their own modules; here an
 * export's result is an input.
 */
module Export {

  /** How one started export ends. */
  datatype Outcome =
    | Saved(filename: string)
      /** An exception inside `try`; `sandboxCreated` says whether it came after the sandbox was attached. */
    | Failed(sandboxCreated: bool)

  class Exporter {
    /** Whether `downloadPDF` starts with `if (exporting) return;`. */
    const guarded: bool
    var exporting: bool
    /** Exports started and not yet finished. */
    var inFlight: nat
    var saved: seq<string>
    var alerts: nat
    /** Sandboxes left attached to the document. */
    var strandedSandboxes: nat

    ghost predicate Valid()
      reads this
    {
      && (guarded ==> (exporting <==> inFlight > 0) && inFlight <= 1)
      && (!guarded ==> !exporting)
    }

    constructor (guarded: bool)
      ensures Valid()
      ensures this.guarded == guarded && !exporting && inFlight == 0
      ensures saved == [] && alerts == 0 && strandedSandboxes == 0
    {
      this.guarded := guarded;
      exporting := false;
      inFlight := 0;
      saved := [];
      alerts := 0;
      strandedSandboxes := 0;
    }

    /** A click on Download PDF: returns without effect when guarded and an export is running. */
    method Begin() returns (started: bool)
      requires Valid()
      modifies this
      ensures Valid()
      ensures started <==> !(guarded && old(exporting))
      ensures inFlight == old(inFlight) + (if started then 1 else 0)
      ensures started ==> exporting == guarded
      ensures !started ==> exporting == old(exporting)
      ensures saved == old(saved) && alerts == old(alerts) && strandedSandboxes == old(strandedSandboxes)
    {
      if guarded && exporting {
        return false;
      }
      if guarded {
        exporting := true;
      }
      inFlight := inFlight + 1;
      started := true;
    }

    /**
     * The end of a started export: the file is saved and the sandbox removed
     * on success; on failure an alert is shown and a sandbox already attached
     * stays; `finally` clears the flag either way.
     */
    method Finish(outcome: Outcome)
      requires Valid() && inFlight > 0
      modifies this
      ensures Valid()
      ensures inFlight == old(inFlight) - 1 && !exporting
      ensures saved == old(saved) + (if outcome.Saved? then [outcome.filename] else [])
      ensures alerts == old(alerts) + (if outcome.Failed? then 1 else 0)
      ensures strandedSandboxes == old(strandedSandboxes) + (if outcome.Failed? && outcome.sandboxCreated then 1 else 0)
    {
      if outcome.Saved? {
        saved := saved + [outcome.filename];
      } else {
        if outcome.sandboxCreated {
          strandedSandboxes := strandedSandboxes + 1;
        }
        alerts := alerts + 1;
      }
      inFlight := inFlight - 1;
      exporting := false;
    }
  }

  /**
   * Two clicks before the first export finishes: with the guard one file is
   * saved, without it (the older quote script) the document is saved twice.
   */
  method DoubleClick(guarded: bool, filename: string) returns (saved: seq<string>)
    ensures guarded ==> saved == [filename]
    ensures !guarded ==> saved == [filename, filename]
  {
    var e := new Exporter(guarded);
    var first := e.Begin();
    var second := e.Begin();
    if first {
      e.Finish(Saved(filename));
    }
    if second {
      e.Finish(Saved(filename));
    }
    saved := e.saved;
  }

  /**
   * A failure after the sandbox was attached leaves that sandbox behind and
   * shows an alert, but clears the flag, so the next click starts a new export.
   */
  method RetryAfterFailure(guarded: bool) returns (stranded: nat, alerts: nat, retried: bool)
    ensures stranded == 1 && alerts == 1 && retried
  {
    var e := new Exporter(guarded);
    var started := e.Begin();
    e.Finish(Failed(true));
    retried := e.Begin();
    stranded, alerts := e.strandedSandboxes, e.alerts;
  }
}
