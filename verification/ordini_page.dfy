/**
 The orders page: the search and the two filter selects over the loaded
 orders, the event options offered by the event select, the four per-state
 counters, and how a save, a deletion or a status change from the form and
 the table is dispatched to the orders hook and announced.
 */
module OrdiniPage {
  import opened Wrappers
  import opened Strings
  import opened Domain
  import opened OrdiniTable
  import OrdiniHook

  // ---------------------------------------------------------------- filtering

  /** The value of a filter select that disables it. */
  const Tutti: string := "tutti"

  datatype Filtri = Filtri(searchQuery: string, filtroStato: string, filtroEvento: string)

  /** A blank search matches every order; otherwise the order number (as
      written) must contain the query as typed, or the client's name must
      contain it ignoring case. */
  predicate MatchSearch(r: OrdineRiga, q: string) {
    Trim(q) == "" ||
    Contains(NatToString(r.ordine.numeroOrdine), q) ||
    (r.cliente.Some? && Contains(ToLower(r.cliente.value.ragioneSociale), ToLower(q)))
  }

  predicate MatchStato(r: OrdineRiga, filtro: string) {
    filtro == Tutti || StatoName(r.ordine.stato) == filtro
  }

  predicate MatchEvento(r: OrdineRiga, filtro: string) {
    filtro == Tutti || r.ordine.nomeEvento == Some(filtro)
  }

  predicate Keep(r: OrdineRiga, f: Filtri) {
    MatchSearch(r, f.searchQuery) && MatchStato(r, f.filtroStato) && MatchEvento(r, f.filtroEvento)
  }

  /** `ordini.filter(...)`: the orders handed to the table. */
  function Filtrati(ordini: seq<OrdineRiga>, f: Filtri): (shown: seq<OrdineRiga>)
    ensures |shown| <= |ordini|
    ensures forall k :: 0 <= k < |shown| ==> Keep(shown[k], f)
  {
    Filter(ordini, (r: OrdineRiga) => Keep(r, f))
  }

  /** The positions of the shown orders in the loaded list. */
  function Positions(ordini: seq<OrdineRiga>, f: Filtri): (idx: seq<nat>)
    ensures |idx| == |Filtrati(ordini, f)|
    ensures forall k :: 0 <= k < |idx| ==> idx[k] < |ordini| && Filtrati(ordini, f)[k] == ordini[idx[k]]
    ensures forall k, l :: 0 <= k < l < |idx| ==> idx[k] < idx[l]
    ensures forall i :: 0 <= i < |ordini| ==> (i in idx <==> Keep(ordini[i], f))
  {
    FilterIndicesMembers(ordini, (r: OrdineRiga) => Keep(r, f));
    FilterIndices(ordini, (r: OrdineRiga) => Keep(r, f))
  }

  /** An order is shown exactly when it is loaded and passes all three filters. */
  lemma FiltratiMembers(ordini: seq<OrdineRiga>, f: Filtri, r: OrdineRiga)
    ensures r in Filtrati(ordini, f) <==> (r in ordini && MatchSearch(r, f.searchQuery) &&
      MatchStato(r, f.filtroStato) && MatchEvento(r, f.filtroEvento))
  {
    FilterMembers(ordini, (r: OrdineRiga) => Keep(r, f), r);
  }

  /** With a blank search and both selects on "tutti" every loaded order is shown. */
  lemma NoFilterShowsAll(ordini: seq<OrdineRiga>, q: string)
    requires Trim(q) == ""
    ensures Filtrati(ordini, Filtri(q, Tutti, Tutti)) == ordini
  {
    FilterAll(ordini, (r: OrdineRiga) => Keep(r, Filtri(q, Tutti, Tutti)));
  }

  /** Typing an order's own number finds it, whatever the other orders are. */
  lemma SearchFindsNumber(r: OrdineRiga)
    ensures MatchSearch(r, NatToString(r.ordine.numeroOrdine))
  {
    var s := NatToString(r.ordine.numeroOrdine);
    assert s <= s;
  }

  /** A state filter keeps only orders in that state. */
  lemma StatoFilterExact(ordini: seq<OrdineRiga>, q: string, s: StatoOrdine, e: string, k: nat)
    requires k < |Filtrati(ordini, Filtri(q, StatoName(s), e))|
    ensures Filtrati(ordini, Filtri(q, StatoName(s), e))[k].ordine.stato == s
  {
    var r := Filtrati(ordini, Filtri(q, StatoName(s), e))[k];
    assert StatoName(r.ordine.stato) == StatoName(s);
    StatoNameInjective(r.ordine.stato, s);
  }

  // ---------------------------------------------------------------- event options

  /** The non-empty event names of the loaded orders, in list order. */
  function EventNames(ordini: seq<OrdineRiga>): (names: seq<string>)
    ensures forall k :: 0 <= k < |names| ==> names[k] != ""
    decreases |ordini|
  {
    if |ordini| == 0 then []
    else
      var init := EventNames(ordini[..|ordini| - 1]);
      var e := ordini[|ordini| - 1].ordine.nomeEvento;
      if e.Some? && e.value != "" then init + [e.value] else init
  }

  /** A name is offered exactly when some loaded order carries it. */
  lemma {:induction false} EventNamesMembers(ordini: seq<OrdineRiga>, x: string)
    ensures x in EventNames(ordini) <==> x != "" && exists k :: 0 <= k < |ordini| && ordini[k].ordine.nomeEvento == Some(x)
    decreases |ordini|
  {
    if |ordini| > 0 {
      var init := ordini[..|ordini| - 1];
      EventNamesMembers(init, x);
      if x != "" && ordini[|ordini| - 1].ordine.nomeEvento != Some(x) {
        forall k | 0 <= k < |ordini| && ordini[k].ordine.nomeEvento == Some(x) ensures k < |init| {
        }
      }
    }
  }

  /** The position of the first `x` in `xs`, or `|xs|` when there is none. */
  function IndexOf(xs: seq<string>, x: string): (i: nat)
    ensures i <= |xs|
    ensures i < |xs| <==> x in xs
    ensures i < |xs| ==> xs[i] == x
    ensures forall k :: 0 <= k < i ==> xs[k] != x
    decreases |xs|
  {
    if |xs| == 0 then 0 else if xs[0] == x then 0 else 1 + IndexOf(xs[1..], x)
  }

  /** Appending does not move the first occurrence of a value already present. */
  lemma IndexOfAppend(xs: seq<string>, y: string, x: string)
    ensures x in xs ==> IndexOf(xs + [y], x) == IndexOf(xs, x)
    ensures x !in xs && x == y ==> IndexOf(xs + [y], x) == |xs|
  {
    var i := IndexOf(xs + [y], x);
    var j := IndexOf(xs, x);
    if x in xs {
      assert (xs + [y])[j] == x;
      assert i <= j;
      assert xs[i] == (xs + [y])[i];
    } else if x == y {
      assert (xs + [y])[|xs|] == x;
    }
  }

  /** `Array.from(new Set(xs))`: each value once, at its first appearance. */
  function Distinct(xs: seq<string>): (r: seq<string>)
    ensures forall i, j :: 0 <= i < j < |r| ==> r[i] != r[j]
    ensures forall x :: x in r <==> x in xs
    decreases |xs|
  {
    if |xs| == 0 then []
    else
      var init := Distinct(xs[..|xs| - 1]);
      var x := xs[|xs| - 1];
      assert xs == xs[..|xs| - 1] + [x];
      if x in init then init else init + [x]
  }

  /** The distinct values are listed in the order of their first appearance. */
  lemma {:induction false} DistinctFirstAppearance(xs: seq<string>)
    ensures forall i, j :: 0 <= i < j < |Distinct(xs)| ==> IndexOf(xs, Distinct(xs)[i]) < IndexOf(xs, Distinct(xs)[j])
    decreases |xs|
  {
    if |xs| > 0 {
      var pre := xs[..|xs| - 1];
      var y := xs[|xs| - 1];
      assert xs == pre + [y];
      DistinctFirstAppearance(pre);
      var d := Distinct(pre);
      var r := Distinct(xs);
      forall v | v in d ensures IndexOf(xs, v) == IndexOf(pre, v) {
        IndexOfAppend(pre, y, v);
      }
      if y !in d {
        assert r == d + [y];
        FirstAppearanceAppend(pre, y, d);
      } else {
        assert r == d;
      }
    }
  }

  /** A value first seen at the end comes after every value seen before it. */
  lemma FirstAppearanceAppend(pre: seq<string>, y: string, d: seq<string>)
    requires y !in d && forall v :: v in d <==> v in pre
    requires forall v :: v in d ==> IndexOf(pre + [y], v) == IndexOf(pre, v)
    requires forall i, j :: 0 <= i < j < |d| ==> IndexOf(pre, d[i]) < IndexOf(pre, d[j])
    ensures forall i, j :: 0 <= i < j < |d + [y]| ==>
      IndexOf(pre + [y], (d + [y])[i]) < IndexOf(pre + [y], (d + [y])[j])
  {
    var xs := pre + [y];
    var r := d + [y];
    IndexOfAppend(pre, y, y);
    forall i, j | 0 <= i < j < |r| ensures IndexOf(xs, r[i]) < IndexOf(xs, r[j]) {
      assert r[i] == d[i] && r[i] in pre;
      if j < |d| {
        assert r[j] == d[j];
      }
    }
  }

  /** The options of the event select after "tutti". */
  function EventOptions(ordini: seq<OrdineRiga>): (opts: seq<string>)
    ensures forall i, j :: 0 <= i < j < |opts| ==> opts[i] != opts[j]
    ensures forall k :: 0 <= k < |opts| ==> opts[k] != ""
  {
    var names := EventNames(ordini);
    var opts := Distinct(names);
    assert forall k :: 0 <= k < |opts| ==> opts[k] in names;
    opts
  }

  /** An event is offered exactly when some loaded order has that non-empty
      event name, and the options follow the order of first appearance. */
  lemma EventOptionsIff(ordini: seq<OrdineRiga>, x: string)
    ensures x in EventOptions(ordini) <==> x != "" && exists k :: 0 <= k < |ordini| && ordini[k].ordine.nomeEvento == Some(x)
    ensures forall i, j :: 0 <= i < j < |EventOptions(ordini)| ==>
      IndexOf(EventNames(ordini), EventOptions(ordini)[i]) < IndexOf(EventNames(ordini), EventOptions(ordini)[j])
  {
    EventNamesMembers(ordini, x);
    DistinctFirstAppearance(EventNames(ordini));
  }

  // ---------------------------------------------------------------- counters

  function CountStato(ordini: seq<OrdineRiga>, s: StatoOrdine): nat {
    |Filter(ordini, (r: OrdineRiga) => r.ordine.stato == s)|
  }

  /** The four counters split the loaded orders: every order is counted once. */
  lemma {:induction false} CountersPartition(ordini: seq<OrdineRiga>)
    ensures CountStato(ordini, Bozza) + CountStato(ordini, Confermato) +
      CountStato(ordini, Evaso) + CountStato(ordini, Annullato) == |ordini|
    decreases |ordini|
  {
    if |ordini| > 0 {
      CountersPartition(ordini[..|ordini| - 1]);
    }
  }

  /** The counters read the whole loaded list, not the filtered one, so a
      counter is never below the number of matching orders on screen. */
  lemma CountersIgnoreFilters(ordini: seq<OrdineRiga>, f: Filtri, s: StatoOrdine)
    ensures CountStato(ordini, s) >= CountStato(Filtrati(ordini, f), s)
  {
    var p := (r: OrdineRiga) => r.ordine.stato == s;
    var shown := Filtrati(ordini, f);
    var a := Filter(shown, p);
    var idx := FilterIndices(shown, p);
    var pos := Positions(ordini, f);
    var mapped := seq(|idx|, k requires 0 <= k < |idx| => pos[idx[k]]);
    forall k | 0 <= k < |mapped| ensures mapped[k] < |ordini| && p(ordini[mapped[k]]) {
      assert shown[idx[k]] == ordini[pos[idx[k]]];
    }
    forall k, l | 0 <= k < l < |mapped| ensures mapped[k] < mapped[l] {
      assert idx[k] < idx[l];
    }
    IncreasingBound(mapped, ordini, p);
  }

  /** An increasing run of positions of elements passing `p` is no longer than the filter. */
  lemma IncreasingBound(pos: seq<nat>, xs: seq<OrdineRiga>, p: OrdineRiga -> bool)
    requires forall k :: 0 <= k < |pos| ==> pos[k] < |xs| && p(xs[pos[k]])
    requires forall k, l :: 0 <= k < l < |pos| ==> pos[k] < pos[l]
    ensures |pos| <= |Filter(xs, p)|
  {
    var idx := FilterIndices(xs, p);
    FilterIndicesMembers(xs, p);
    var s := set k | 0 <= k < |pos| :: pos[k];
    assert forall i :: i in s ==> i in idx;
    InjectiveCard(pos);
    SubsetOfSeq(s, idx);
  }

  lemma {:induction false} InjectiveCard(pos: seq<nat>)
    requires forall k, l :: 0 <= k < l < |pos| ==> pos[k] < pos[l]
    ensures |set k | 0 <= k < |pos| :: pos[k]| == |pos|
    decreases |pos|
  {
    if |pos| > 0 {
      var init := pos[..|pos| - 1];
      InjectiveCard(init);
      var a := set k | 0 <= k < |init| :: init[k];
      var b := set k | 0 <= k < |pos| :: pos[k];
      assert b == a + {pos[|pos| - 1]};
      assert pos[|pos| - 1] !in a;
    }
  }

  lemma {:induction false} SubsetOfSeq(s: set<nat>, xs: seq<nat>)
    requires forall i :: i in s ==> i in xs
    ensures |s| <= |xs|
    decreases |xs|
  {
    if |xs| > 0 {
      var init := xs[..|xs| - 1];
      var x := xs[|xs| - 1];
      var t := s - {x};
      forall i | i in t ensures i in init {
        assert i in xs && i != x;
        var k :| 0 <= k < |xs| && xs[k] == i;
        assert k < |init|;
      }
      SubsetOfSeq(t, init);
    } else {
      assert s == {};
    }
  }

  // ---------------------------------------------------------------- dispatch

  const OrdineCreated: string := "Ordine creato con successo"
  const OrdineUpdated: string := "Ordine aggiornato con successo"
  const OrdineDeleted: string := "Ordine eliminato con successo"

  /** The hook call the page makes for a save from the order form. */
  datatype SaveCall =
    | CallCreate(data: OrdineInsert, righe: seq<RigaOrdineCreate>)
    | CallUpdate(id: string, data: OrdineInsert, nuoveRighe: Option<seq<RigaOrdineCreate>>)

  /** `handleSave`: update the order being edited, or create a new one.  The
      page always passes the lines, so an edit always replaces them. */
  function SaveDispatch(editing: Option<string>, data: OrdineInsert, righe: seq<RigaOrdineCreate>): (c: SaveCall)
    ensures c.CallUpdate? <==> editing.Some?
    ensures c.CallUpdate? ==> c == CallUpdate(editing.value, data, Some(righe))
    ensures c.CallCreate? ==> c == CallCreate(data, righe)
  {
    if editing.Some? then CallUpdate(editing.value, data, Some(righe)) else CallCreate(data, righe)
  }

  /** The success banner after a hook call: shown only when the call
      succeeded; a failure is left to the hook's error text. */
  function SaveNotice(editing: Option<string>, result: OrdiniHook.SaveResult): (m: Option<string>)
    ensures m.Some? <==> result.Saved?
    ensures m.Some? ==> (m.value == OrdineUpdated <==> editing.Some?)
    ensures m.Some? ==> (m.value == OrdineCreated <==> editing.None?)
  {
    if !result.Saved? then None
    else if editing.Some? then Some(OrdineUpdated) else Some(OrdineCreated)
  }

  /** An edit saved from the page, with every write succeeding, deletes the
      old lines and inserts the new ones under the same order. */
  lemma EditReplacesLines(id: string, data: OrdineInsert, righe: seq<RigaOrdineCreate>)
    ensures SaveDispatch(Some(id), data, righe) == CallUpdate(id, data, Some(righe))
    ensures OrdiniHook.UpdateOrdineRun(id, data, Some(righe), OrdiniHook.Ok, OrdiniHook.Ok, OrdiniHook.Ok, OrdiniHook.Ok).trace ==
      [OrdiniHook.UpdateOrdine(id, data), OrdiniHook.DeleteRighe(id), OrdiniHook.InsertRighe(OrdiniHook.Attach(righe, id)),
       OrdiniHook.PatchTotals(id, OrdiniHook.Recompute(data, righe)), OrdiniHook.Refetch]
  {
  }

  /** The banner after a table effect has gone through the hook. */
  function EffectNotice(e: Effect, result: OrdiniHook.SaveResult): (m: Option<string>)
    ensures m.Some? <==> result.Saved? && !e.NoEffect?
    ensures m.Some? && e.Elimina? ==> m.value == OrdineDeleted
    ensures m.Some? && e.CambiaStato? ==> m.value == "Stato ordine aggiornato a: " + StatoName(e.stato)
  {
    if !result.Saved? then None
    else match e
      case NoEffect => None
      case Elimina(_) => Some(OrdineDeleted)
      case CambiaStato(_, s) => Some("Stato ordine aggiornato a: " + StatoName(s))
  }
}
