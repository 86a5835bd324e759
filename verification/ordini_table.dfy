/**
 The order list table: one row per order with its padded number, event,
 client, product badges, total and discount, the status menu, the edit or
 view action and the two-click delete, and a footer with the count and the
 summed value.  Clicks are events of a small state machine whose effects
 (a status change, a deletion) are handed to the page.
 */
module OrdiniTable {
  import opened Wrappers
  import opened Strings
  import opened Domain
  import OrderPdf

  /** The client columns joined onto an order by the order list query. */
  datatype ClienteBreve = ClienteBreve(id: string, ragioneSociale: string, citta: Option<string>)

  datatype OrdineRiga = OrdineRiga(ordine: Ordine, cliente: Option<ClienteBreve>)

  // ---------------------------------------------------------------- status menu

  /** Fulfilled and cancelled orders get no menu. */
  predicate IsFinal(s: StatoOrdine) { s == Evaso || s == Annullato }

  /** How far along the lifecycle a state is. */
  function Rank(s: StatoOrdine): nat {
    match s
    case Bozza => 0
    case Confermato => 1
    case _ => 2
  }

  /** The entries of the status menu, top to bottom: the forward step of a
      draft or a confirmed order, then "Annulla", which every open order offers. */
  function MenuOptions(s: StatoOrdine): (opts: seq<StatoOrdine>)
    ensures |opts| == 0 <==> IsFinal(s)
    ensures !IsFinal(s) ==> |opts| == 2 && opts[1] == Annullato
    ensures forall t :: t in opts ==> Rank(s) < Rank(t)
  {
    match s
    case Bozza => [Confermato, Annullato]
    case Confermato => [Evaso, Annullato]
    case _ => []
  }

  /** The targets of each state, and that none of them is a draft. */
  lemma MenuTargets(s: StatoOrdine, t: StatoOrdine)
    ensures s == Bozza ==> (t in MenuOptions(s) <==> t == Confermato || t == Annullato)
    ensures s == Confermato ==> (t in MenuOptions(s) <==> t == Evaso || t == Annullato)
    ensures t in MenuOptions(s) ==> t != Bozza && t != s
  {
  }

  /** A run of states each reached through the menu from the previous one. */
  predicate MenuPath(p: seq<StatoOrdine>) {
    forall i :: 0 < i < |p| ==> p[i] in MenuOptions(p[i - 1])
  }

  /** Along a menu path every state is further along than its position, so a
      path has at most three states, none of them repeated, and after the
      first none is a draft. */
  lemma {:induction false} MenuPathBound(p: seq<StatoOrdine>)
    requires MenuPath(p)
    ensures |p| <= 3
    ensures forall i :: 0 < i < |p| ==> p[i] != Bozza
    ensures forall i, j :: 0 <= i < j < |p| ==> p[i] != p[j]
  {
    forall j | 0 <= j < |p| ensures Rank(p[j]) >= j + Rank(p[0]) {
      RankGrows(p, j);
    }
    forall i, j | 0 <= i < j < |p| ensures p[i] != p[j] {
      RankIncreases(p, i, j);
    }
    if |p| > 0 {
      assert Rank(p[|p| - 1]) >= |p| - 1;
    }
  }

  lemma {:induction false} RankGrows(p: seq<StatoOrdine>, j: nat)
    requires MenuPath(p) && j < |p|
    ensures Rank(p[j]) >= j + Rank(p[0])
  {
    if j > 0 {
      RankGrows(p, j - 1);
      assert p[j] in MenuOptions(p[j - 1]);
    }
  }

  lemma {:induction false} RankIncreases(p: seq<StatoOrdine>, i: nat, j: nat)
    requires MenuPath(p) && i < j < |p|
    ensures Rank(p[i]) < Rank(p[j])
    decreases j - i
  {
    assert p[j] in MenuOptions(p[j - 1]);
    if i < j - 1 {
      RankIncreases(p, i, j - 1);
    }
  }

  // ---------------------------------------------------------------- clicks

  /** The open status menu (at most one, by order id) and the order whose
      delete button is armed. */
  datatype TableState = TableState(menuAperto: Option<string>, deleteConfirm: Option<string>)

  const Initial: TableState := TableState(None, None)

  datatype Event =
    | ToggleMenu(id: string)            // click on an order's status badge
    | PickStato(o: Ordine, t: StatoOrdine)  // click on a menu entry
    | ClickDelete(id: string)           // click on an order's delete button
    | TimerFired                        // a pending three-second reset of the armed button

  datatype Effect = NoEffect | CambiaStato(id: string, stato: StatoOrdine) | Elimina(id: string)

  /** Whether the status menu of `o` is on screen. */
  predicate MenuShown(s: TableState, o: Ordine) {
    s.menuAperto == Some(o.id) && !IsFinal(o.stato)
  }

  /** The badge toggles the menu of its order: it closes when already open
      for that order and otherwise opens there, closing any other. */
  function Toggle(open: Option<string>, id: string): (r: Option<string>)
    ensures r == Some(id) <==> open != Some(id)
    ensures r != Some(id) ==> r.None?
  {
    if open == Some(id) then None else Some(id)
  }

  /** The delete button: a click on the armed order deletes it and disarms;
      any other click arms the clicked order. */
  function Delete(armed: Option<string>, id: string): (r: (Option<string>, Effect))
    ensures r.1 == Elimina(id) <==> armed == Some(id)
    ensures r.1 != Elimina(id) ==> r.1 == NoEffect
    ensures armed == Some(id) ==> r.0 == None
    ensures armed != Some(id) ==> r.0 == Some(id)
  {
    if armed == Some(id) then (None, Elimina(id)) else (Some(id), NoEffect)
  }

  /** One click (or the timer) on the table.  A menu entry acts only when its
      menu is on screen and offers it, and then also closes the menu. */
  function Step(s: TableState, e: Event): (r: (TableState, Effect))
    ensures e.ToggleMenu? ==> r.1 == NoEffect && r.0.deleteConfirm == s.deleteConfirm
    ensures e.ToggleMenu? ==> (r.0.menuAperto == Some(e.id) <==> s.menuAperto != Some(e.id))
    ensures e.ToggleMenu? && r.0.menuAperto != Some(e.id) ==> r.0.menuAperto.None?
    ensures e.PickStato? ==> r.0.deleteConfirm == s.deleteConfirm
    ensures e.PickStato? ==> (r.1 != NoEffect <==> MenuShown(s, e.o) && e.t in MenuOptions(e.o.stato))
    ensures e.PickStato? && r.1 != NoEffect ==> r.1 == CambiaStato(e.o.id, e.t) && r.0.menuAperto.None?
    ensures e.PickStato? && r.1 == NoEffect ==> r.0 == s
    ensures e.ClickDelete? ==> r.0.menuAperto == s.menuAperto
    ensures e.ClickDelete? ==> (r.1 == Elimina(e.id) <==> s.deleteConfirm == Some(e.id))
    ensures e.ClickDelete? && r.1 != Elimina(e.id) ==> r.1 == NoEffect && r.0.deleteConfirm == Some(e.id)
    ensures e.ClickDelete? && r.1 == Elimina(e.id) ==> r.0.deleteConfirm.None?
    ensures e.TimerFired? ==> r == (TableState(s.menuAperto, None), NoEffect)
  {
    match e
    case ToggleMenu(id) => (s.(menuAperto := Toggle(s.menuAperto, id)), NoEffect)
    case PickStato(o, t) =>
      if MenuShown(s, o) && t in MenuOptions(o.stato) then (s.(menuAperto := None), CambiaStato(o.id, t))
      else (s, NoEffect)
    case ClickDelete(id) =>
      var d := Delete(s.deleteConfirm, id);
      (s.(deleteConfirm := d.0), d.1)
    case TimerFired => (s.(deleteConfirm := None), NoEffect)
  }

  /** The first click on an order's delete button only arms it; the second
      one in a row deletes that order. */
  lemma TwoClicksDelete(s: TableState, id: string)
    requires s.deleteConfirm != Some(id)
    ensures Step(s, ClickDelete(id)).1 == NoEffect
    ensures Step(Step(s, ClickDelete(id)).0, ClickDelete(id)).1 == Elimina(id)
    ensures Step(Step(s, ClickDelete(id)).0, ClickDelete(id)).0.deleteConfirm.None?
  {
  }

  /** Running a sequence of events from a state: the final state and the effects, in order. */
  function Run(s: TableState, es: seq<Event>): (r: (TableState, seq<Effect>))
    ensures |r.1| == |es|
    decreases |es|
  {
    if |es| == 0 then (s, [])
    else
      var prev := Run(s, es[..|es| - 1]);
      var last := Step(prev.0, es[|es| - 1]);
      (last.0, prev.1 + [last.1])
  }

  function Deletions(fx: seq<Effect>): nat
    decreases |fx|
  {
    if |fx| == 0 then 0 else Deletions(fx[..|fx| - 1]) + (if fx[|fx| - 1].Elimina? then 1 else 0)
  }

  function DeleteClicks(es: seq<Event>): nat
    decreases |es|
  {
    if |es| == 0 then 0 else DeleteClicks(es[..|es| - 1]) + (if es[|es| - 1].ClickDelete? then 1 else 0)
  }

  /** Every deletion costs two clicks on the delete buttons: from a table with
      nothing armed, twice the deletions plus one for a still-armed button never
      exceed the delete clicks. */
  lemma {:induction false} DeletionsNeedTwoClicks(s: TableState, es: seq<Event>)
    requires s.deleteConfirm.None?
    ensures 2 * Deletions(Run(s, es).1) + (if Run(s, es).0.deleteConfirm.Some? then 1 else 0) <= DeleteClicks(es)
    decreases |es|
  {
    if |es| > 0 {
      var init := es[..|es| - 1];
      DeletionsNeedTwoClicks(s, init);
      var prev := Run(s, init);
      var last := Step(prev.0, es[|es| - 1]);
      assert Run(s, es).1 == prev.1 + [last.1];
      assert (prev.1 + [last.1])[..|prev.1|] == prev.1;
    }
  }

  // ---------------------------------------------------------------- row cells

  /** `'#' + numero_ordine.toString().padStart(4, '0')` */
  function NumeroCell(n: nat): (cell: string)
    ensures |cell| >= 5 && cell[0] == '#'
    ensures AllDigits(cell[1..]) && DigitsValue(cell[1..]) == n
  {
    var c := "#" + OrderPdf.PadNumero(n);
    assert c[1..] == OrderPdf.PadNumero(n);
    c
  }

  /** The label of a state: its stored name with the first letter upper-cased. */
  function StatoLabel(s: StatoOrdine): (l: string)
    ensures |l| == |StatoName(s)| && |l| > 0
    ensures IsAsciiUpper(l[0]) && ToLower(l) == StatoName(s)
    ensures l[0] == UpperChar(StatoName(s)[0]) && l[1..] == StatoName(s)[1..]
  {
    var n := StatoName(s);
    StatoNameLower(s);
    CapitalizedLowers(n);
    [UpperChar(n[0])] + n[1..]
  }

  /** Every state name is a non-empty word of lower-case letters. */
  lemma StatoNameLower(s: StatoOrdine)
    ensures |StatoName(s)| > 0 && IsAsciiLower(StatoName(s)[0])
    ensures forall i :: 0 <= i < |StatoName(s)| ==> !IsAsciiUpper(StatoName(s)[i])
  {
  }

  /** Upper-casing the first letter of a lower-case word is undone by `ToLower`. */
  lemma CapitalizedLowers(n: string)
    requires |n| > 0 && IsAsciiLower(n[0])
    requires forall i :: 0 <= i < |n| ==> !IsAsciiUpper(n[i])
    ensures var l := [UpperChar(n[0])] + n[1..];
      IsAsciiUpper(l[0]) && l[1..] == n[1..] && ToLower(l) == n
  {
    var l := [UpperChar(n[0])] + n[1..];
    assert l[1..] == n[1..];
    assert ToLower(l)[0] == n[0];
    assert forall i :: 1 <= i < |l| ==> ToLower(l)[i] == n[i];
  }

  /** The espositori badge, with the sale mode when it is set. */
  datatype EspositoriBadge = NoBadge | Badge(modo: Option<string>)

  datatype Badges = Badges(espositori: EspositoriBadge, altriProdotti: bool)

  function ModoText(t: TipoVendita): string {
    match t
    case Diretto => "Diretto"
    case Leasing => "Leasing"
  }

  function BadgesOf(o: Ordine): (b: Badges)
    ensures b.espositori.Badge? <==> o.haEspositori
    ensures b.espositori.Badge? ==> (b.espositori.modo.Some? <==> o.tipoVenditaEspositori.Some?)
    ensures b.espositori.Badge? && b.espositori.modo.Some? ==>
      b.espositori.modo.value == (if o.tipoVenditaEspositori.value == Diretto then "Diretto" else "Leasing")
    ensures b.altriProdotti <==> o.haAltriProdotti && !o.haEspositori
    ensures !(b.espositori.Badge? && b.altriProdotti)
  {
    var esp := if o.haEspositori then Badge(if o.tipoVenditaEspositori.Some? then Some(ModoText(o.tipoVenditaEspositori.value)) else None) else NoBadge;
    Badges(esp, o.haAltriProdotti && !o.haEspositori)
  }

  /**
   What the cell under the total renders for the stored percentage, as
   written: the guard `p && p > 0 && note` yields its first falsy operand, so
   a stored 0 is rendered as a bare "0", while a missing or negative
   percentage renders nothing.
   */
  datatype ScontoCell = NoNote | StrayZero | Note(p: real)

  function ScontoCellAsWritten(o: Ordine): (c: ScontoCell)
    ensures c == StrayZero <==> o.scontoPercentuale == Some(0.0)
    ensures c.Note? <==> o.scontoPercentuale.Some? && o.scontoPercentuale.value > 0.0
    ensures c.Note? ==> c.p == o.scontoPercentuale.value
  {
    match o.scontoPercentuale
    case None => NoNote
    case Some(p) => if p == 0.0 then StrayZero else if p > 0.0 then Note(p) else NoNote
  }

  /** The cell a note, or its absence, renders. */
  function CellOf(n: Option<real>): ScontoCell {
    if n.Some? then Note(n.value) else NoNote
  }

  /** The cell as written and the intended note differ exactly at a stored zero. */
  lemma ScontoCellDiffersOnlyAtZero(o: Ordine)
    ensures ScontoCellAsWritten(o) != CellOf(ScontoNote(o)) <==> o.scontoPercentuale == Some(0.0)
  {
  }

  /** An order saved with a zero percentage shows a stray "0" under its total,
      where the intended note is absent. */
  lemma ZeroPercentShowsStrayZero(o: Ordine)
    requires o.scontoPercentuale == Some(0.0)
    ensures ScontoCellAsWritten(o) == StrayZero && ScontoNote(o).None?
  {
  }

  /** The "Sconto p%" note under the total as intended: shown exactly for a
      positive percentage, nothing otherwise (zero included). */
  function ScontoNote(o: Ordine): (p: Option<real>)
    ensures p.Some? <==> o.scontoPercentuale.Some? && o.scontoPercentuale.value > 0.0
    ensures p.Some? ==> p.value == o.scontoPercentuale.value && p.value > 0.0
  {
    if o.scontoPercentuale.Some? && o.scontoPercentuale.value > 0.0 then o.scontoPercentuale else None
  }

  /** Drafts can be edited; every other order opens read-only. */
  datatype Azione = Modifica | Visualizza

  datatype RigaView = RigaView(
    numero: string,
    evento: string,
    cliente: string,
    citta: Option<string>,
    badges: Badges,
    sconto: Option<real>,
    stato: string,
    menu: seq<StatoOrdine>,
    azione: Azione,
    deleteArmed: bool)

  /** The event cell: the event name, or "N/A" when there is none. */
  function EventoCell(o: Ordine): (cell: string)
    ensures cell == "N/A" <==> o.nomeEvento.None? || o.nomeEvento.value in {"", "N/A"}
    ensures OrderPdf.Truthy(o.nomeEvento) ==> cell == o.nomeEvento.value
  {
    StrOr(o.nomeEvento, "N/A")
  }

  /** The client cell: the company name, or "N/A" without a client or a name. */
  function ClienteName(r: OrdineRiga): (cell: string)
    ensures cell == "N/A" <==> r.cliente.None? || r.cliente.value.ragioneSociale in {"", "N/A"}
    ensures r.cliente.Some? && r.cliente.value.ragioneSociale != "" ==> cell == r.cliente.value.ragioneSociale
  {
    StrOr(if r.cliente.Some? then Some(r.cliente.value.ragioneSociale) else None, "N/A")
  }

  /** The city line under the client, shown only when it is set and non-empty. */
  function CittaOf(r: OrdineRiga): (c: Option<string>)
    ensures c.Some? <==> r.cliente.Some? && OrderPdf.Truthy(r.cliente.value.citta)
    ensures c.Some? ==> c == r.cliente.value.citta && c.value != ""
  {
    if r.cliente.Some? && OrderPdf.Truthy(r.cliente.value.citta) then r.cliente.value.citta else None
  }

  /** One table row as the current clicks leave it. */
  function RowView(r: OrdineRiga, s: TableState): (v: RigaView)
    ensures v.numero == NumeroCell(r.ordine.numeroOrdine)
    ensures v.evento == EventoCell(r.ordine) && v.cliente == ClienteName(r) && v.citta == CittaOf(r)
    ensures v.badges == BadgesOf(r.ordine) && v.sconto == ScontoNote(r.ordine)
    ensures |v.menu| > 0 <==> MenuShown(s, r.ordine)
    ensures v.stato == StatoLabel(r.ordine.stato)
    ensures MenuShown(s, r.ordine) ==> v.menu == MenuOptions(r.ordine.stato)
    ensures v.azione == Modifica <==> r.ordine.stato == Bozza
    ensures v.deleteArmed <==> s.deleteConfirm == Some(r.ordine.id)
  {
    var o := r.ordine;
    RigaView(NumeroCell(o.numeroOrdine), EventoCell(o), ClienteName(r), CittaOf(r),
      BadgesOf(o), ScontoNote(o), StatoLabel(o.stato),
      if MenuShown(s, o) then MenuOptions(o.stato) else [],
      if o.stato == Bozza then Modifica else Visualizza,
      s.deleteConfirm == Some(o.id))
  }

  // ---------------------------------------------------------------- footer

  /** `ordini.reduce((sum, o) => sum + o.totale, 0)` */
  function SumTotali(rows: seq<OrdineRiga>): real
    decreases |rows|
  {
    if |rows| == 0 then 0.0 else SumTotali(rows[..|rows| - 1]) + rows[|rows| - 1].ordine.totale
  }

  /** The value of two lists together is the sum of their values. */
  lemma {:induction false} SumConcat(a: seq<OrdineRiga>, b: seq<OrdineRiga>)
    ensures SumTotali(a + b) == SumTotali(a) + SumTotali(b)
    decreases |b|
  {
    if |b| > 0 {
      var b0 := b[..|b| - 1];
      SumConcat(a, b0);
      assert (a + b)[..|a + b| - 1] == a + b0;
      assert (a + b)[|a + b| - 1] == b[|b| - 1];
    } else {
      assert a + b == a;
    }
  }

  /** The value of a list is at least each order's total when no total is negative. */
  lemma {:induction false} SumBounds(rows: seq<OrdineRiga>, k: nat)
    requires forall i :: 0 <= i < |rows| ==> rows[i].ordine.totale >= 0.0
    requires k < |rows|
    ensures SumTotali(rows) >= rows[k].ordine.totale
    ensures SumTotali(rows) >= 0.0
    decreases |rows|
  {
    SumNonNegative(rows[..|rows| - 1]);
    if k < |rows| - 1 {
      SumBounds(rows[..|rows| - 1], k);
    }
  }

  lemma {:induction false} SumNonNegative(rows: seq<OrdineRiga>)
    requires forall i :: 0 <= i < |rows| ==> rows[i].ordine.totale >= 0.0
    ensures SumTotali(rows) >= 0.0
    decreases |rows|
  {
    if |rows| > 0 {
      SumNonNegative(rows[..|rows| - 1]);
    }
  }

  datatype Footer = Footer(count: nat, noun: string, valore: real)

  /** Either the empty-list notice or the rows with their footer. */
  datatype TableView = EmptyNotice(text: string) | Table(rows: seq<RigaView>, footer: Footer)

  const NoOrders: string := "Nessun ordine presente. Crea il tuo primo ordine!"

  function View(rows: seq<OrdineRiga>, s: TableState): (v: TableView)
    ensures v.EmptyNotice? <==> |rows| == 0
    ensures v.Table? ==> |v.rows| == |rows| && forall k :: 0 <= k < |rows| ==> v.rows[k] == RowView(rows[k], s)
    ensures v.Table? ==> v.footer.count == |rows| && (v.footer.noun == "ordine" <==> |rows| == 1)
    ensures v.Table? ==> v.footer.valore == SumTotali(rows)
  {
    if |rows| == 0 then EmptyNotice(NoOrders)
    else
      Table(seq(|rows|, k requires 0 <= k < |rows| => RowView(rows[k], s)),
        Footer(|rows|, if |rows| == 1 then "ordine" else "ordini", SumTotali(rows)))
  }
}
