/**
 The two print dialogs: the copy counter shared by both, the order dialog's
 header and generator dispatch, the blank-form dialog's print request and
 its preview of the product table.
 */
module PrintModals {
  import opened Wrappers
  import opened Strings
  import opened OrderPdf
  import opened BlankForm

  const MinCopie: int := 1
  const MaxCopie: int := 20

  predicate InRange(n: int) { MinCopie <= n <= MaxCopie }

  function Max(a: int, b: int): int { if a >= b then a else b }
  function Min(a: int, b: int): int { if a <= b then a else b }

  // ---------------------------------------------------------------- copy counter

  /** The − button. */
  function Decrement(n: int): (r: int)
    ensures r >= MinCopie
    ensures InRange(n) ==> InRange(r)
    ensures n > MinCopie ==> r == n - 1
  {
    Max(MinCopie, n - 1)
  }

  /** The + button. */
  function Increment(n: int): (r: int)
    ensures r <= MaxCopie
    ensures InRange(n) ==> InRange(r)
    ensures n < MaxCopie ==> r == n + 1
  {
    Min(MaxCopie, n + 1)
  }

  /** A typed value: `parseInt` gives None for non-numeric text, and 0 also
      falls back to 1 before clamping to [1, 20]. */
  function Typed(parsed: Option<int>): (r: int)
    ensures InRange(r)
    ensures parsed.Some? && InRange(parsed.value) ==> r == parsed.value
    ensures parsed.Some? && parsed.value > MaxCopie ==> r == MaxCopie
    ensures parsed.None? || parsed.value < MinCopie ==> r == MinCopie
  {
    var v := if parsed.Some? && parsed.value != 0 then parsed.value else 1;
    Max(MinCopie, Min(MaxCopie, v))
  }

  /** Inside the range, + and − undo each other. */
  lemma StepsInverse(n: int)
    ensures MinCopie <= n < MaxCopie ==> Decrement(Increment(n)) == n
    ensures MinCopie < n <= MaxCopie ==> Increment(Decrement(n)) == n
  {
  }

  datatype CopyEvent = Minus | Plus | Type(parsed: Option<int>)

  function Apply(n: int, e: CopyEvent): int {
    match e
    case Minus => Decrement(n)
    case Plus => Increment(n)
    case Type(p) => Typed(p)
  }

  function ApplyAll(n: int, events: seq<CopyEvent>): int
    decreases |events|
  {
    if |events| == 0 then n else ApplyAll(Apply(n, events[0]), events[1..])
  }

  /** Starting from one copy, no sequence of clicks and typing leaves [1, 20]. */
  lemma {:induction false} CounterStaysInRange(n: int, events: seq<CopyEvent>)
    requires InRange(n)
    ensures InRange(ApplyAll(n, events))
    decreases |events|
  {
    if |events| > 0 {
      CounterStaysInRange(Apply(n, events[0]), events[1..]);
    }
  }

  // ---------------------------------------------------------------- order dialog

  /** "#0042 - Rossi Srl", or "#0042 " without a company name. */
  function OrdineHeader(numero: nat, ragioneSociale: Option<string>): (h: string)
    ensures |h| >= 2 + |PadNumero(numero)| && h[0] == '#'
    ensures AllDigits(h[1..1 + |PadNumero(numero)|]) && DigitsValue(h[1..1 + |PadNumero(numero)|]) == numero
    ensures h[1 + |PadNumero(numero)|] == ' '
    ensures |h| == 2 + |PadNumero(numero)| <==> !Truthy(ragioneSociale)
  {
    var pad := PadNumero(numero);
    var suffix := if Truthy(ragioneSociale) then "- " + ragioneSociale.value else "";
    var h := "#" + pad + (" " + suffix);
    assert h[1..1 + |pad|] == pad;
    h
  }

  datatype StampaOrdineState = StampaOrdineState(ordine: OrdineDoc, tipoDocumento: TipoDocumento, numeroCopie: int)

  /** `handleStampa`: the chosen generator run with the current copy count. */
  method StampaOrdine(s: StampaOrdineState) returns (pages: seq<Copies.Sheet<PageLayout>>, fileName: string)
    ensures InRange(s.numeroCopie) ==> |pages| == s.numeroCopie
    ensures forall k :: 0 <= k < |pages| && s.numeroCopie >= 1 ==> pages[k] == Copies.Drawn(PageOf(s.ordine, s.tipoDocumento))
    ensures fileName == FileName(s.ordine, s.tipoDocumento, s.numeroCopie)
    ensures forall k :: 0 <= k < |pages| && pages[k].Drawn? ==>
      (pages[k].content.table.LeasingTable? <==> IsGrenkePreventivo(s.tipoDocumento, s.ordine.ordine))
    ensures forall k :: 0 <= k < |pages| && pages[k].Drawn? && pages[k].content.table.LeasingTable? ==>
      s.tipoDocumento == Preventivo
  {
    pages, fileName := GenerateDocument(s.ordine, s.tipoDocumento, s.numeroCopie);
  }

  // ---------------------------------------------------------------- blank-form dialog

  datatype ModuloState = ModuloState(tipo: TipoModulo, numeroCopie: int, prodotti: seq<ProdottoModulo>, loading: bool)

  datatype ModuloRequest = ModuloRequest(tipo: TipoModulo, numeroCopie: int, prodotti: seq<ProdottoModulo>,
                                         evento: Option<string>)

  /** The print button is disabled while loading; otherwise the dialog's
      choices, the fetched products and the current event go through unchanged. */
  function StampaModulo(s: ModuloState, eventoCorrente: Option<string>): (r: Option<ModuloRequest>)
    ensures r.None? <==> s.loading
    ensures r.Some? ==> (r.value.tipo == s.tipo && r.value.numeroCopie == s.numeroCopie &&
      r.value.prodotti == s.prodotti && r.value.evento == eventoCorrente)
  {
    if s.loading then None else Some(ModuloRequest(s.tipo, s.numeroCopie, s.prodotti, eventoCorrente))
  }

  const Loading := "Caricamento prodotti..."
  const EmptyTable := "Tabella con 18 righe vuote"

  function CountText(n: nat): string {
    "Tabella con " + NatToString(n) + " prodotti"
  }

  /** The preview line as the dialog writes it: it counts every fetched product. */
  function PreviewTableAsWritten(s: ModuloState): (line: string)
    ensures s.loading ==> line == Loading
    ensures !s.loading ==> (line == EmptyTable <==> |s.prodotti| == 0)
  {
    if s.loading then Loading
    else if |s.prodotti| > 0 then CountTextNotEmpty(|s.prodotti|); CountText(|s.prodotti|)
    else EmptyTable
  }

  /** The count in a count line reads back. */
  lemma CountTextReads(n: nat)
    ensures var t := CountText(n);
      |t| >= 21 && AllDigits(t[12..|t| - 9]) && DigitsValue(t[12..|t| - 9]) == n
  {
    NatToStringRoundTrip(n);
    var t := CountText(n);
    assert t[12..|t| - 9] == NatToString(n);
  }

  lemma CountTextNotEmpty(n: nat)
    ensures CountText(n) != EmptyTable
  {
    var t := CountText(n);
    assert t[|t| - 1] == 'i';
    assert EmptyTable[|EmptyTable| - 1] == 'e';
  }

  /** One product of another family: the dialog promises a table of 1 product,
      but the form lists none of it and prints 18 empty rows. */
  lemma PreviewMiscounts(p: ProdottoModulo)
    requires p.categoria == Some("Ricambi")
    ensures PreviewTableAsWritten(ModuloState(Espositori, 1, [p], false)) == CountText(1)
    ensures Filtra(Espositori, [p]) == []
    ensures PreviewTableAsWritten(ModuloState(Espositori, 1, [p], false)) != EmptyTable
  {
    assert !InFamily(Espositori, p) by {
      assert "Ricambi" != "ESPOSITORI" && "Ricambi" != "Nuovi" && "Ricambi" != "Usati";
    }
    assert [p][1..] == [];
    CountTextNotEmpty(1);
  }

  /** The preview line counting the entries the form will list. */
  function PreviewTable(s: ModuloState): (line: string)
    ensures s.loading ==> line == Loading
  {
    if s.loading then Loading
    else if |Filtra(s.tipo, s.prodotti)| > 0 then CountText(|Filtra(s.tipo, s.prodotti)|)
    else EmptyTable
  }

  /** The corrected preview promises empty rows exactly when the form lists no
      product, and otherwise announces the number of listed rows. */
  lemma PreviewMatchesForm(s: ModuloState)
    requires !s.loading
    ensures PreviewTable(s) == EmptyTable <==> |Filtra(s.tipo, s.prodotti)| == 0
    ensures |Filtra(s.tipo, s.prodotti)| > 0 ==> var t := PreviewTable(s);
      |t| >= 21 && AllDigits(t[12..|t| - 9]) && DigitsValue(t[12..|t| - 9]) == |Filtra(s.tipo, s.prodotti)|
  {
    var n := |Filtra(s.tipo, s.prodotti)|;
    if n > 0 {
      CountTextNotEmpty(n);
      CountTextReads(n);
    }
  }
}
