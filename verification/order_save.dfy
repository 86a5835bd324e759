/**
 The orders hook: creating, updating and deleting an order as a sequence of
 backend writes, the totals it recomputes from the persisted lines, and the
 result it reports.  Each backend write is a request whose outcome is a
 parameter; the first failing write ends the sequence.
 */
module OrdiniHook {
  import opened Wrappers
  import opened Domain
  import OrdineForm

  /** The backend writes the hook issues, in the order it may issue them. */
  datatype Request =
    | InsertOrdine(ordine: OrdineInsert)
    | UpdateOrdine(id: string, ordine: OrdineInsert)
    | DeleteRighe(ordineId: string)
    | InsertRighe(righe: seq<RigaOrdine>)
    | PatchTotals(id: string, totals: Totals)
    | DeleteOrdine(id: string)
    | Refetch

  /** The three columns the totals patch writes, and nothing else. */
  datatype Totals = Totals(subtotale: real, scontoValore: real, totale: real)

  datatype Outcome = Ok | Fail(thrown: Thrown)

  datatype Step = Step(request: Request, outcome: Outcome)

  /** The requests actually sent, and the failure that stopped them, if any. */
  datatype Performed = Performed(trace: seq<Request>, failure: Option<Thrown>)

  /** The value returned to the page: `{ success: true, data? }` or `{ success: false, error }`. */
  datatype SaveResult = Saved(created: Option<string>) | SaveFailed(error: string)

  datatype Run = Run(trace: seq<Request>, result: SaveResult)

  const UnknownError: string := "Errore sconosciuto"

  /** Awaiting the writes one by one, each `if (error) throw error`. */
  function Perform(steps: seq<Step>): (p: Performed)
    ensures |p.trace| <= |steps|
    ensures forall k :: 0 <= k < |p.trace| ==> p.trace[k] == steps[k].request
    ensures p.failure.None? <==> forall k :: 0 <= k < |steps| ==> steps[k].outcome.Ok?
    ensures p.failure.None? ==> |p.trace| == |steps|
    ensures p.failure.Some? ==> (|p.trace| >= 1 &&
      steps[|p.trace| - 1].outcome == Fail(p.failure.value) &&
      forall k :: 0 <= k < |p.trace| - 1 ==> steps[k].outcome.Ok?)
    decreases |steps|
  {
    if |steps| == 0 then Performed([], None)
    else match steps[0].outcome
      case Fail(t) => Performed([steps[0].request], Some(t))
      case Ok =>
        var rest := Perform(steps[1..]);
        assert forall k :: 1 <= k < |steps| ==> steps[k] == steps[1..][k - 1];
        Performed([steps[0].request] + rest.trace, rest.failure)
  }

  /** `righe.map(riga => ({ ...riga, ordine_id: id }))` */
  function Attach(righe: seq<RigaOrdineCreate>, id: string): (r: seq<RigaOrdine>)
    ensures |r| == |righe|
    ensures forall k :: 0 <= k < |r| ==> r[k].ordineId == id && r[k].line == righe[k]
  {
    seq(|righe|, k requires 0 <= k < |righe| => RigaOrdine(id, righe[k]))
  }

  /** `righe.reduce((sum, r) => sum + (r.subtotale_riga || 0), 0)` */
  function SumRighe(righe: seq<RigaOrdineCreate>): real
    decreases |righe|
  {
    if |righe| == 0 then 0.0 else SumRighe(righe[..|righe| - 1]) + OrZero(righe[|righe| - 1].subtotaleRiga)
  }

  /**
   The totals recomputed after the lines are written: the discount is the
   percentage only when it is set and positive, otherwise the absolute value
   (absent counting as 0).
   */
  function Recompute(o: OrdineInsert, righe: seq<RigaOrdineCreate>): (t: Totals)
    ensures t.subtotale == SumRighe(righe)
    ensures t.totale == t.subtotale - t.scontoValore
  {
    var s := SumRighe(righe);
    var d := if o.scontoPercentuale.Some? && o.scontoPercentuale.value > 0.0
      then s * o.scontoPercentuale.value / 100.0 else OrZero(o.scontoValore);
    Totals(s, d, s - d)
  }

  function Message(t: Thrown): string { MessageOr(t, UnknownError) }

  /** `createOrdine`: insert the order, insert its lines under the new id,
      patch the recomputed totals, then reload the list. */
  function CreateOrdine(o: OrdineInsert, righe: seq<RigaOrdineCreate>,
                        insertOrdine: Result<string, Thrown>, insertRighe: Outcome, patch: Outcome): (run: Run)
    ensures insertOrdine.Failure? ==>
      run == Run([InsertOrdine(o)], SaveFailed(Message(insertOrdine.error)))
    ensures insertOrdine.Success? && insertRighe.Fail? ==>
      run == Run([InsertOrdine(o), InsertRighe(Attach(righe, insertOrdine.value))],
        SaveFailed(Message(insertRighe.thrown)))
    ensures insertOrdine.Success? && insertRighe.Ok? && patch.Fail? ==>
      run == Run([InsertOrdine(o), InsertRighe(Attach(righe, insertOrdine.value)),
        PatchTotals(insertOrdine.value, Recompute(o, righe))], SaveFailed(Message(patch.thrown)))
    ensures run.result.Saved? <==> insertOrdine.Success? && insertRighe.Ok? && patch.Ok?
    ensures run.result.Saved? ==>
      run == Run([InsertOrdine(o), InsertRighe(Attach(righe, insertOrdine.value)),
        PatchTotals(insertOrdine.value, Recompute(o, righe)), Refetch], Saved(Some(insertOrdine.value)))
  {
    match insertOrdine
    case Failure(t) => Run([InsertOrdine(o)], SaveFailed(Message(t)))
    case Success(id) =>
      var p := Perform([Step(InsertRighe(Attach(righe, id)), insertRighe),
                        Step(PatchTotals(id, Recompute(o, righe)), patch)]);
      match p.failure
      case Some(t) => Run([InsertOrdine(o)] + p.trace, SaveFailed(Message(t)))
      case None =>
        assert p.trace == [InsertRighe(Attach(righe, id)), PatchTotals(id, Recompute(o, righe))];
        Run([InsertOrdine(o)] + p.trace + [Refetch], Saved(Some(id)))
  }

  /** The steps `updateOrdine` takes after updating the order row: none
      without lines; with lines, delete the old ones, insert the new ones,
      patch the totals. */
  function LineSteps(id: string, o: OrdineInsert, righe: Option<seq<RigaOrdineCreate>>,
                     deleteRighe: Outcome, insertRighe: Outcome, patch: Outcome): seq<Step>
  {
    match righe
    case None => []
    case Some(rs) =>
      [Step(DeleteRighe(id), deleteRighe),
       Step(InsertRighe(Attach(rs, id)), insertRighe),
       Step(PatchTotals(id, Recompute(o, rs)), patch)]
  }

  /** `updateOrdine`: update the row, replace the lines and totals when lines
      are given, then reload the list. */
  function UpdateOrdineRun(id: string, o: OrdineInsert, righe: Option<seq<RigaOrdineCreate>>,
                           update: Outcome, deleteRighe: Outcome, insertRighe: Outcome, patch: Outcome): (run: Run)
    ensures |run.trace| >= 1 && run.trace[0] == UpdateOrdine(id, o)
    ensures righe.None? ==> forall k :: 0 <= k < |run.trace| ==>
      !run.trace[k].DeleteRighe? && !run.trace[k].InsertRighe? && !run.trace[k].PatchTotals?
    ensures righe.None? ==> (run.result.Saved? <==> update.Ok?)
    ensures update.Fail? ==> run == Run([UpdateOrdine(id, o)], SaveFailed(Message(update.thrown)))
    ensures run.result.Saved? ==> run.result.created.None? && run.trace[|run.trace| - 1] == Refetch
    ensures run.result.Saved? && righe.Some? ==>
      run.trace == [UpdateOrdine(id, o), DeleteRighe(id), InsertRighe(Attach(righe.value, id)),
        PatchTotals(id, Recompute(o, righe.value)), Refetch]
    ensures run.result.SaveFailed? <==> (update.Fail? ||
      (righe.Some? && (deleteRighe.Fail? || insertRighe.Fail? || patch.Fail?)))
  {
    var steps := [Step(UpdateOrdine(id, o), update)] + LineSteps(id, o, righe, deleteRighe, insertRighe, patch);
    assert steps[0].outcome == update;
    assert righe.Some? ==> (steps[1].outcome == deleteRighe && steps[2].outcome == insertRighe &&
      steps[3].outcome == patch);
    var p := Perform(steps);
    match p.failure
    case Some(t) => Run(p.trace, SaveFailed(Message(t)))
    case None => Run(p.trace + [Refetch], Saved(None))
  }

  /** With lines, a failure stops every later write: the trace ends at the failing step. */
  lemma UpdateStopsAtFirstFailure(id: string, o: OrdineInsert, rs: seq<RigaOrdineCreate>,
                                  deleteRighe: Outcome, insertRighe: Outcome, patch: Outcome)
    ensures deleteRighe.Fail? ==>
      UpdateOrdineRun(id, o, Some(rs), Ok, deleteRighe, insertRighe, patch) ==
      Run([UpdateOrdine(id, o), DeleteRighe(id)], SaveFailed(Message(deleteRighe.thrown)))
    ensures deleteRighe.Ok? && insertRighe.Fail? ==>
      UpdateOrdineRun(id, o, Some(rs), Ok, deleteRighe, insertRighe, patch) ==
      Run([UpdateOrdine(id, o), DeleteRighe(id), InsertRighe(Attach(rs, id))], SaveFailed(Message(insertRighe.thrown)))
    ensures deleteRighe.Ok? && insertRighe.Ok? && patch.Fail? ==>
      UpdateOrdineRun(id, o, Some(rs), Ok, deleteRighe, insertRighe, patch) ==
      Run([UpdateOrdine(id, o), DeleteRighe(id), InsertRighe(Attach(rs, id)), PatchTotals(id, Recompute(o, rs))],
        SaveFailed(Message(patch.thrown)))
  {
    var steps := [Step(UpdateOrdine(id, o), Ok)] + LineSteps(id, o, Some(rs), deleteRighe, insertRighe, patch);
    var p := Perform(steps);
    assert steps[1].outcome == deleteRighe && steps[2].outcome == insertRighe && steps[3].outcome == patch;
    if deleteRighe.Fail? {
      assert |p.trace| == 2;
    } else if insertRighe.Fail? {
      assert |p.trace| == 3;
    } else if patch.Fail? {
      assert |p.trace| == 4;
    }
  }

  /** `deleteOrdine`: one delete of the order row; its lines are not touched. */
  function DeleteOrdineRun(id: string, delete: Outcome): (run: Run)
    ensures forall k :: 0 <= k < |run.trace| ==> !run.trace[k].DeleteRighe?
    ensures run.result.Saved? <==> delete.Ok?
    ensures delete.Ok? ==> run.trace == [DeleteOrdine(id), Refetch] && run.result == Saved(None)
    ensures delete.Fail? ==> run == Run([DeleteOrdine(id)], SaveFailed(Message(delete.thrown)))
  {
    var p := Perform([Step(DeleteOrdine(id), delete)]);
    match p.failure
    case Some(t) => Run(p.trace, SaveFailed(Message(t)))
    case None => Run(p.trace + [Refetch], Saved(None))
  }

  // ---------------------------------------------------------------- agreement with the form

  lemma {:induction false} SumRigheOfCart(c: OrdineForm.Carrello)
    ensures SumRighe(OrdineForm.BuildRighe(c)) == OrdineForm.Subtotal(c)
    decreases |c|
  {
    var r := OrdineForm.BuildRighe(c);
    if |c| > 0 {
      var n := |c| - 1;
      SumRigheOfCart(c[..n]);
      var r' := OrdineForm.BuildRighe(c[..n]);
      assert r[..n] == r' by {
        forall k | 0 <= k < n ensures r[k] == r'[k] {
          assert r[k] == OrdineForm.BuildRiga(c[k], k);
        }
      }
      assert r[n].subtotaleRiga == Some(OrdineForm.Amount(c[n]));
    }
  }

  /**
   The totals patched after a save, for any form contents: the subtotal
   always agrees with the cart, and the discount and total agree with the
   form's display whenever no zero percentage is set.  A zero percentage
   shows no discount while the save falls back to the absolute value; the
   sync effect clears such a percentage, so this case is only reachable
   before it has run (see `SavedTotalsMatchSyncedForm`).
   */
  lemma SavedTotalsMatchForm(f: OrdineInsert, tipo: TipoVendita, hasEspositori: bool, c: OrdineForm.Carrello)
    ensures var t := Recompute(OrdineForm.BuildOrdine(f, tipo, hasEspositori), OrdineForm.BuildRighe(c));
      t.subtotale == OrdineForm.Subtotal(c) &&
      (f.scontoPercentuale.None? || f.scontoPercentuale.value > 0.0 ==>
        t.scontoValore == OrdineForm.Discount(OrdineForm.Subtotal(c), f.scontoPercentuale, f.scontoValore) &&
        t.totale == OrdineForm.Total(OrdineForm.Subtotal(c), f.scontoPercentuale, f.scontoValore)) &&
      (f.scontoPercentuale == Some(0.0) ==> t.scontoValore == OrZero(f.scontoValore))
  {
    SumRigheOfCart(c);
  }

  /**
   Once the form is synced, what the save patches is exactly what the form
   stored and displayed: subtotal, discount and total, with no exception for
   a zero percentage, which the effect has already cleared.
   */
  lemma SavedTotalsMatchSyncedForm(f: OrdineInsert, tipo: TipoVendita, hasEspositori: bool, c: OrdineForm.Carrello)
    requires OrdineForm.Synced(f, c)
    ensures var t := Recompute(OrdineForm.BuildOrdine(f, tipo, hasEspositori), OrdineForm.BuildRighe(c));
      t.subtotale == f.subtotale &&
      Some(t.scontoValore) == f.scontoValore &&
      t.totale == f.totale
  {
    SavedTotalsMatchForm(f, tipo, hasEspositori, c);
  }

  /** The saved row carries both discount fields: a 10% order of subtotal
      250 keeps `sconto_percentuale` 10 and gets `sconto_valore` 25. */
  lemma BothDiscountFieldsPersisted(f: OrdineInsert, righe: seq<RigaOrdineCreate>, id: string)
    requires f.scontoPercentuale == Some(10.0) && SumRighe(righe) == 250.0
    ensures var run := CreateOrdine(f, righe, Success(id), Ok, Ok);
      run.trace[0] == InsertOrdine(f) && run.trace[0].ordine.scontoPercentuale == Some(10.0) &&
      run.trace[2] == PatchTotals(id, Totals(250.0, 25.0, 225.0))
  {
  }
}
