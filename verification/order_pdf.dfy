/**
 The order and quote documents: the layout decisions of one page (header,
 client block, sale-mode banner, which product table, the totals block and
 its offsets), the Grenke leasing summary row, the file name and the copy
 loop.  Drawing itself is not modelled; a page is the record of what it
 shows.
 */
module OrderPdf {
  import opened Wrappers
  import opened Strings
  import opened Domain
  import opened Grenke
  import opened Copies

  datatype TipoDocumento = OrdineDocumento | Preventivo

  /** The client columns joined onto the order for printing. */
  datatype ClienteDoc = ClienteDoc(
    ragioneSociale: string,
    nomeReferente: Option<string>,
    citta: Option<string>,
    provincia: Option<string>,
    indirizzo: Option<string>,
    cap: Option<string>,
    telefono: Option<string>,
    cellulare: Option<string>,
    email: Option<string>,
    partitaIva: Option<string>,
    codiceFiscale: Option<string>)

  datatype ProdottoDoc = ProdottoDoc(nome: string, codiceProdotto: string, unitaMisura: Option<string>)

  datatype RigaDoc = RigaDoc(quantita: real, prezzoUnitario: real, subtotaleRiga: real, prodotto: Option<ProdottoDoc>)

  /** An order with its client and lines; missing lines are an empty sequence. */
  datatype OrdineDoc = OrdineDoc(ordine: Ordine, cliente: Option<ClienteDoc>, righe: seq<RigaDoc>)

  /** JavaScript truthiness of an optional text. */
  predicate Truthy(s: Option<string>) { s.Some? && s.value != "" }

  // ---------------------------------------------------------------- header

  function Label(t: TipoDocumento): string {
    match t
    case OrdineDocumento => "ORDINE"
    case Preventivo => "PREVENTIVO"
  }

  /** `numero_ordine.toString().padStart(4, '0')` */
  function PadNumero(n: nat): (r: string)
    ensures |r| >= 4 && AllDigits(r) && DigitsValue(r) == n
  {
    PaddedNumberRoundTrip(n, 4);
    PadStart(NatToString(n), 4, '0')
  }

  /** Two orders print the same padded number only when their numbers agree. */
  lemma PadNumeroInjective(a: nat, b: nat)
    ensures PadNumero(a) == PadNumero(b) <==> a == b
  {
  }

  /** The header reads back as the document label and the order number. */
  function HeaderText(t: TipoDocumento, numero: nat): (h: string)
    ensures |h| >= |Label(t)| + 6
    ensures h[..|Label(t)|] == Label(t)
    ensures AllDigits(h[|Label(t)| + 2..]) && DigitsValue(h[|Label(t)| + 2..]) == numero
  {
    var h := Label(t) + " #" + PadNumero(numero);
    assert h[|Label(t)| + 2..] == PadNumero(numero);
    assert h[..|Label(t)|] == Label(t);
    h
  }

  /** The event line appears only for a non-empty event name. */
  function EventLine(o: Ordine): (e: Option<string>)
    ensures e.Some? <==> Truthy(o.nomeEvento)
    ensures e.Some? ==> e == o.nomeEvento
  {
    if Truthy(o.nomeEvento) then o.nomeEvento else None
  }

  // ---------------------------------------------------------------- client block

  /** `[a, b, c].filter(Boolean)`: the present, non-empty parts in order. */
  function Present(parts: seq<Option<string>>): (r: seq<string>)
    ensures |r| <= |parts|
    ensures forall k :: 0 <= k < |r| ==> r[k] != ""
    ensures |r| == 0 <==> forall k :: 0 <= k < |parts| ==> !Truthy(parts[k])
    decreases |parts|
  {
    if |parts| == 0 then []
    else
      var rest := Present(parts[1..]);
      assert forall k :: 1 <= k < |parts| ==> parts[k] == parts[1..][k - 1];
      if Truthy(parts[0]) then [parts[0].value] + rest else rest
  }

  /** Join non-empty parts with a separator; the result is empty only for no parts. */
  function JoinParts(parts: seq<string>, sep: string): (r: string)
    requires forall k :: 0 <= k < |parts| ==> parts[k] != ""
    ensures r == "" <==> |parts| == 0
  {
    if |parts| == 0 then "" else Join(parts, sep)
  }

  function OptLine(b: bool, line: string): (r: seq<string>)
    ensures |r| == Count(b)
  {
    if b then [line] else []
  }

  function Count(b: bool): nat { if b then 1 else 0 }

  predicate NonEmptyLines(lines: seq<string>) {
    forall k :: 0 <= k < |lines| ==> lines[k] != ""
  }

  lemma NonEmptyConcat(a: seq<string>, b: seq<string>)
    requires NonEmptyLines(a) && NonEmptyLines(b)
    ensures NonEmptyLines(a + b)
  {
    assert forall k :: |a| <= k < |a + b| ==> (a + b)[k] == b[k - |a|];
  }

  function LocationLine(cl: ClienteDoc): string {
    JoinParts(Present([cl.cap, cl.citta, cl.provincia]), " ")
  }

  function PhoneLine(cl: ClienteDoc): string {
    "Tel: " + JoinParts(Present([cl.telefono, cl.cellulare]), " / ")
  }

  predicate HasLocation(cl: ClienteDoc) { Truthy(cl.citta) || Truthy(cl.cap) || Truthy(cl.provincia) }

  predicate HasPhone(cl: ClienteDoc) { Truthy(cl.telefono) || Truthy(cl.cellulare) }

  /** The lines after the company name, each shown only when it has content. */
  function DetailLines(cl: ClienteDoc): seq<string> {
    OptLine(Truthy(cl.nomeReferente), "Ref: " + cl.nomeReferente.GetOr("")) +
    (OptLine(Truthy(cl.indirizzo), cl.indirizzo.GetOr("")) +
    (OptLine(HasLocation(cl), LocationLine(cl)) +
    (OptLine(HasPhone(cl), PhoneLine(cl)) +
    (OptLine(Truthy(cl.partitaIva), "P.IVA: " + cl.partitaIva.GetOr("")) +
     OptLine(Truthy(cl.codiceFiscale), "C.F.: " + cl.codiceFiscale.GetOr(""))))))
  }

  /**
   The printed client block: the company name, then the contact, address,
   "cap città provincia", telephone numbers joined by " / ", VAT number and
   tax code lines.
   */
  function ClientLines(c: Option<ClienteDoc>): (lines: seq<string>)
    ensures c.None? ==> lines == []
    ensures c.Some? ==> |lines| >= 1 && lines[0] == c.value.ragioneSociale
  {
    match c
    case None => []
    case Some(cl) => [cl.ragioneSociale] + DetailLines(cl)
  }

  /** One line per group that has content, and no empty line after the name. */
  lemma {:induction false} ClientLinesShape(cl: ClienteDoc)
    ensures |ClientLines(Some(cl))| == 1 + Count(Truthy(cl.nomeReferente)) + Count(Truthy(cl.indirizzo)) +
      Count(HasLocation(cl)) + Count(HasPhone(cl)) + Count(Truthy(cl.partitaIva)) + Count(Truthy(cl.codiceFiscale))
    ensures NonEmptyLines(ClientLines(Some(cl))[1..])
  {
    var ps := [cl.cap, cl.citta, cl.provincia];
    assert ps[0] == cl.cap && ps[1] == cl.citta && ps[2] == cl.provincia;
    var ts := [cl.telefono, cl.cellulare];
    assert ts[0] == cl.telefono && ts[1] == cl.cellulare;
    var a := OptLine(Truthy(cl.nomeReferente), "Ref: " + cl.nomeReferente.GetOr(""));
    var b := OptLine(Truthy(cl.indirizzo), cl.indirizzo.GetOr(""));
    var l := OptLine(HasLocation(cl), LocationLine(cl));
    var p := OptLine(HasPhone(cl), PhoneLine(cl));
    var v := OptLine(Truthy(cl.partitaIva), "P.IVA: " + cl.partitaIva.GetOr(""));
    var f := OptLine(Truthy(cl.codiceFiscale), "C.F.: " + cl.codiceFiscale.GetOr(""));
    assert NonEmptyLines(a) && NonEmptyLines(b) && NonEmptyLines(l);
    assert NonEmptyLines(p) && NonEmptyLines(v) && NonEmptyLines(f);
    NonEmptyConcat(v, f);
    NonEmptyConcat(p, v + f);
    NonEmptyConcat(l, p + (v + f));
    NonEmptyConcat(b, l + (p + (v + f)));
    NonEmptyConcat(a, b + (l + (p + (v + f))));
    assert ClientLines(Some(cl))[1..] == DetailLines(cl);
  }

  /** The sale-mode banner, shown only for display units with a sale mode. */
  function Banner(o: Ordine): (b: Option<string>)
    ensures b.Some? <==> o.haEspositori && o.tipoVenditaEspositori.Some?
    ensures b.Some? ==> (b.value == "ESPOSITORI - " +
      (if o.tipoVenditaEspositori.value == Diretto then "VENDITA DIRETTA" else "LEASING GRENKE"))
  {
    if o.haEspositori && o.tipoVenditaEspositori.Some? then
      Some("ESPOSITORI - " + (match o.tipoVenditaEspositori.value
        case Diretto => "VENDITA DIRETTA"
        case Leasing => "LEASING GRENKE"))
    else None
  }

  // ---------------------------------------------------------------- leasing summary

  /** `r.prodotti?.nome || ''` */
  function NomeOf(r: RigaDoc): string {
    if r.prodotto.Some? then r.prodotto.value.nome else ""
  }

  /** The line's product name yields a recognised model. */
  predicate Recognised(r: RigaDoc) {
    ModelKeyOf(NomeOf(r)) != Default
  }

  /** The first line whose product name yields a recognised model. */
  function Detect(righe: seq<RigaDoc>): (d: Option<nat>)
    ensures d.Some? ==> (d.value < |righe| && ModelKeyOf(NomeOf(righe[d.value])) != Default &&
      forall j :: 0 <= j < d.value ==> ModelKeyOf(NomeOf(righe[j])) == Default)
    ensures d.None? ==> forall j :: 0 <= j < |righe| ==> ModelKeyOf(NomeOf(righe[j])) == Default
  {
    FirstWhere(righe, Recognised)
  }

  /** No line before position `k` has a product name. */
  predicate NoNameBefore(righe: seq<RigaDoc>, k: int)
    requires 0 <= k <= |righe|
  {
    forall j :: 0 <= j < k ==> NomeOf(righe[j]) == ""
  }

  /** No line before position `k` matches the model key. */
  predicate NoMatchBefore(righe: seq<RigaDoc>, k: int, key: string)
    requires 0 <= k <= |righe|
  {
    forall j :: 0 <= j < k ==> !MatchesGrenkeModel(NomeOf(righe[j]), key)
  }

  /** `getGrenkeModelDisplayName`: the first non-empty product name, else "". */
  function DisplayName(righe: seq<RigaDoc>): (n: string)
    ensures n == "" <==> forall k :: 0 <= k < |righe| ==> NomeOf(righe[k]) == ""
    ensures n != "" ==> exists k :: 0 <= k < |righe| && NomeOf(righe[k]) == n && NoNameBefore(righe, k)
    decreases |righe|
  {
    if |righe| == 0 then ""
    else if NomeOf(righe[0]) != "" then NomeOf(righe[0])
    else
      var rest := DisplayName(righe[1..]);
      assert forall k :: 1 <= k < |righe| ==> righe[k] == righe[1..][k - 1];
      rest
  }

  /** `rows.find(r => matchesGrenkeModel(nome(r), key))` */
  function FindMatching(righe: seq<RigaDoc>, key: string): (m: Option<RigaDoc>)
    ensures m.Some? ==> m.value in righe && MatchesGrenkeModel(NomeOf(m.value), key)
    ensures m.None? <==> forall k :: 0 <= k < |righe| ==> !MatchesGrenkeModel(NomeOf(righe[k]), key)
    ensures m.Some? ==> exists k :: 0 <= k < |righe| && m.value == righe[k] && NoMatchBefore(righe, k, key)
  {
    var d := FirstWhere(righe, (r: RigaDoc) => MatchesGrenkeModel(NomeOf(r), key));
    if d.Some? then
      assert NoMatchBefore(righe, d.value, key);
      Some(righe[d.value])
    else None
  }

  /** The one row of the leasing table and the conditions text below it. */
  datatype LeasingRow = LeasingRow(
    codice: string,
    modello: string,
    quantita: real,
    prezzoUnitario: real,
    scontoPercentuale: real,
    subtotaleScontato: real,
    testoCondizioni: string)

  function ModelKeyFor(righe: seq<RigaDoc>): ModelKey {
    match Detect(righe)
    case Some(i) => ModelKeyOf(NomeOf(righe[i]))
    case None => ModelKeyOf(DisplayName(righe))
  }

  function ModelRow(righe: seq<RigaDoc>): Option<RigaDoc> {
    match Detect(righe)
    case Some(i) => Some(righe[i])
    case None => FindMatching(righe, KeyName(ModelKeyFor(righe)))
  }

  /**
   The leasing summary: the detected model row's code, name, quantity (a
   zero quantity shown as 1) and price, the order's percentage (absent as
   0) and the discounted subtotal price × quantity × (1 − percentage/100).
   */
  function LeasingSummary(o: OrdineDoc): (s: LeasingRow)
    ensures s.subtotaleScontato == Scontato(s.prezzoUnitario, s.quantita, s.scontoPercentuale)
    ensures s.scontoPercentuale == OrZero(o.ordine.scontoPercentuale)
    ensures s.testoCondizioni == TestoCondizioni(ModelKeyFor(o.righe))
  {
    SummaryOf(ModelRow(o.righe), DisplayName(o.righe), OrZero(o.ordine.scontoPercentuale),
      TestoCondizioni(ModelKeyFor(o.righe)))
  }

  /** The leasing row built from the chosen model row, if any. */
  function SummaryOf(row: Option<RigaDoc>, displayName: string, pct: real, testo: string): LeasingRow {
    var nome := if row.Some? then NomeOf(row.value) else "";
    var modello := if nome != "" then nome else displayName;
    var codice := if row.Some? && row.value.prodotto.Some? then row.value.prodotto.value.codiceProdotto else "";
    var prezzo := if row.Some? then row.value.prezzoUnitario else 0.0;
    var qty := if row.Some? && row.value.quantita != 0.0 then row.value.quantita else 1.0;
    LeasingRow(codice, modello, qty, prezzo, pct, Scontato(prezzo, qty, pct), testo)
  }

  /** `prezzoUnit * qty * (1 - scontoPerc / 100)` */
  function Scontato(prezzo: real, qty: real, pct: real): real {
    prezzo * qty * (1.0 - pct / 100.0)
  }

  /** With a recognised line, the summary is that line's data and model text. */
  lemma LeasingDetected(o: OrdineDoc, i: nat)
    requires Detect(o.righe) == Some(i)
    ensures var s := LeasingSummary(o);
      s.prezzoUnitario == o.righe[i].prezzoUnitario &&
      s.quantita == (if o.righe[i].quantita == 0.0 then 1.0 else o.righe[i].quantita) &&
      s.modello == (if NomeOf(o.righe[i]) != "" then NomeOf(o.righe[i]) else DisplayName(o.righe)) &&
      ModelKeyFor(o.righe) != Default &&
      s.testoCondizioni == TestoCondizioni(ModelKeyOf(NomeOf(o.righe[i])))
  {
  }

  /** With no recognised line, the display name yields no model either, no row
      is chosen, and the summary is code "", price 0, quantity 1, the first
      product name and the default conditions text. */
  lemma LeasingUndetected(o: OrdineDoc)
    requires Detect(o.righe).None?
    ensures ModelKeyFor(o.righe) == Default
    ensures ModelRow(o.righe).None?
    ensures LeasingSummary(o) == LeasingRow("", DisplayName(o.righe), 1.0, 0.0,
      OrZero(o.ordine.scontoPercentuale), 0.0, TestoCondizioni(Default))
  {
    var n := DisplayName(o.righe);
    if n != "" {
      var k :| 0 <= k < |o.righe| && NomeOf(o.righe[k]) == n;
    } else {
      assert Normalize("") == "" by {
        assert ToLower("") == "";
      }
      ContainsIff("", "leo2");
      ContainsIff("", "leo3");
      ContainsIff("", "leo4");
      ContainsIff("", "leo5");
      ContainsIff("", "titano");
    }
    forall k | 0 <= k < |o.righe| ensures !MatchesGrenkeModel(NomeOf(o.righe[k]), KeyName(Default)) {
      KeyMatchesItsName(NomeOf(o.righe[k]));
    }
  }

  // ---------------------------------------------------------------- product table

  /** A row of the full line table; quantity and money stay numbers. */
  datatype LineRow = LineRow(codice: string, nome: string, quantita: real, unita: string,
                             prezzoUnitario: real, subtotale: real)

  function LineRows(righe: seq<RigaDoc>): (rows: seq<LineRow>)
    ensures |rows| == |righe|
    ensures forall k :: 0 <= k < |righe| ==>
      rows[k].quantita == righe[k].quantita && rows[k].subtotale == righe[k].subtotaleRiga &&
      rows[k].nome == NomeOf(righe[k]) && rows[k].prezzoUnitario == righe[k].prezzoUnitario
    ensures forall k :: 0 <= k < |righe| ==>
      rows[k].codice == (if righe[k].prodotto.Some? then righe[k].prodotto.value.codiceProdotto else "")
    ensures forall k :: 0 <= k < |righe| ==>
      (righe[k].prodotto.Some? && Truthy(righe[k].prodotto.value.unitaMisura) ==>
        rows[k].unita == righe[k].prodotto.value.unitaMisura.value) &&
      (righe[k].prodotto.None? || !Truthy(righe[k].prodotto.value.unitaMisura) ==> rows[k].unita == "pz")
  {
    seq(|righe|, k requires 0 <= k < |righe| => LineRowOf(righe[k]))
  }

  function LineRowOf(r: RigaDoc): LineRow {
    match r.prodotto
    case None => LineRow("", "", r.quantita, "pz", r.prezzoUnitario, r.subtotaleRiga)
    case Some(p) =>
      LineRow(p.codiceProdotto, p.nome, r.quantita, if Truthy(p.unitaMisura) then p.unitaMisura.value else "pz",
        r.prezzoUnitario, r.subtotaleRiga)
  }

  datatype ProductTable = LeasingTable(row: LeasingRow) | LineTable(rows: seq<LineRow>)

  predicate IsGrenkePreventivo(t: TipoDocumento, o: Ordine) {
    t == Preventivo && o.haEspositori && o.tipoVenditaEspositori == Some(Leasing)
  }

  /** Each page shows exactly one product table: the leasing summary for a
      leasing quote with display units, the full line table otherwise. */
  function TableFor(t: TipoDocumento, o: OrdineDoc): (table: ProductTable)
    ensures table.LeasingTable? <==> IsGrenkePreventivo(t, o.ordine)
    ensures table.LineTable? ==> |table.rows| == |o.righe|
  {
    if IsGrenkePreventivo(t, o.ordine) then LeasingTable(LeasingSummary(o)) else LineTable(LineRows(o.righe))
  }

  // ---------------------------------------------------------------- totals block

  datatype DiscountLabel = WithPercent(percentuale: real) | Plain

  /** The lines under the table, as offsets below the subtotal line. */
  datatype TotalsLayout = TotalsLayout(discount: Option<DiscountLabel>, totalOffset: int, notesOffset: Option<int>)

  predicate HasDiscount(o: Ordine) { o.scontoValore.Some? && o.scontoValore.value > 0.0 }

  /** The discount line appears only for a positive discount value and names
      the percentage only when that is positive; the total sits 6 below the
      last line above it; notes start 8 below the total. */
  function Totals(o: Ordine): (l: TotalsLayout)
    ensures l.discount.Some? <==> HasDiscount(o)
    ensures l.discount.Some? ==> (l.discount.value.WithPercent? <==>
      o.scontoPercentuale.Some? && o.scontoPercentuale.value > 0.0)
    ensures l.totalOffset == 6 + (if HasDiscount(o) then 6 else 0)
    ensures l.notesOffset.Some? <==> Truthy(o.note)
    ensures l.notesOffset.Some? ==> l.notesOffset.value == l.totalOffset + 8
  {
    var tag := if o.scontoPercentuale.Some? && o.scontoPercentuale.value > 0.0
      then WithPercent(o.scontoPercentuale.value) else Plain;
    var total := if HasDiscount(o) then 12 else 6;
    TotalsLayout(if HasDiscount(o) then Some(tag) else None, total,
      if Truthy(o.note) then Some(if HasDiscount(o) then 20 else 14) else None)
  }

  // ---------------------------------------------------------------- page, file, copies

  datatype PageLayout = PageLayout(
    header: string,
    eventLine: Option<string>,
    stato: string,
    clientLines: seq<string>,
    banner: Option<string>,
    table: ProductTable,
    totals: TotalsLayout)

  /** `renderDocumentoPage` */
  function PageOf(o: OrdineDoc, t: TipoDocumento): PageLayout {
    PageLayout(HeaderText(t, o.ordine.numeroOrdine), EventLine(o.ordine), ToUpper(StatoName(o.ordine.stato)),
      ClientLines(o.cliente), Banner(o.ordine), TableFor(t, o), Totals(o.ordine))
  }

  function Prefix(t: TipoDocumento): string {
    match t
    case OrdineDocumento => "Ordine"
    case Preventivo => "Preventivo"
  }

  function ClientName(o: OrdineDoc): string {
    if o.cliente.Some? && o.cliente.value.ragioneSociale != "" then o.cliente.value.ragioneSociale else "Cliente"
  }

  function CopiesSuffix(n: int): string {
    if n > 1 then "_copie" + NatToString(n) else ""
  }

  function Stem(o: OrdineDoc, t: TipoDocumento): string {
    Prefix(t) + "_" + PadNumero(o.ordine.numeroOrdine) + "_" + ClientName(o)
  }

  /** `getDocumentoFileName` */
  function FileName(o: OrdineDoc, t: TipoDocumento, numeroCopie: int): (f: string)
    ensures EndsWith(f, ".pdf")
  {
    Stem(o, t) + (CopiesSuffix(numeroCopie) + ".pdf")
  }

  lemma SliceMiddle(a: string, b: string, c: string)
    ensures (a + (b + c))[|a|..|a| + |b|] == b
  {
  }

  /** The order number reads back from the name, right after the type prefix. */
  lemma {:induction false} FileNameNumber(o: OrdineDoc, t: TipoDocumento, n: int)
    ensures var f := FileName(o, t, n); var pre := Prefix(t) + "_";
      var pad := PadNumero(o.ordine.numeroOrdine);
      |pre| + |pad| <= |f| && f[..|pre|] == pre && f[|pre|..|pre| + |pad|] == pad &&
      DigitsValue(f[|pre|..|pre| + |pad|]) == o.ordine.numeroOrdine
  {
    var pre := Prefix(t) + "_";
    var pad := PadNumero(o.ordine.numeroOrdine);
    var tail := "_" + ClientName(o) + (CopiesSuffix(n) + ".pdf");
    FileNameShape(o, t, n);
    SplitAfter(pre, pad, tail);
  }

  lemma SplitAfter(a: string, b: string, c: string)
    ensures var f := a + (b + c); |a| + |b| <= |f| && f[..|a|] == a && f[|a|..|a| + |b|] == b
  {
    var f := a + (b + c);
    assert f[..|a|] == a;
    assert f[|a|..|a| + |b|] == b;
  }

  lemma FileNameShape(o: OrdineDoc, t: TipoDocumento, n: int)
    ensures FileName(o, t, n) == (Prefix(t) + "_") + (PadNumero(o.ordine.numeroOrdine) +
      ("_" + ClientName(o) + (CopiesSuffix(n) + ".pdf")))
  {
    Regroup5(Prefix(t) + "_", PadNumero(o.ordine.numeroOrdine), "_", ClientName(o), CopiesSuffix(n) + ".pdf");
  }

  lemma Regroup5(a: string, b: string, c: string, d: string, e: string)
    ensures (((a + b) + c) + d) + e == a + (b + ((c + d) + e))
  {
  }

  lemma CopiesShape(o: OrdineDoc, t: TipoDocumento, n: int)
    requires n > 1
    ensures FileName(o, t, n) == (Stem(o, t) + "_copie") + (NatToString(n) + ".pdf")
  {
    var x := NatToString(n);
    assert FileName(o, t, n) == Stem(o, t) + (("_copie" + x) + ".pdf");
    Regroup(Stem(o, t), "_copie", x, ".pdf");
  }

  lemma Regroup(a: string, b: string, c: string, d: string)
    ensures a + ((b + c) + d) == (a + b) + (c + d)
  {
  }

  lemma DistinctMiddles(stem: string, a: string, b: string, suffix: string)
    requires a != b
    ensures stem + (a + suffix) != stem + (b + suffix)
  {
    if stem + (a + suffix) == stem + (b + suffix) {
      SliceMiddle(stem, a, suffix);
      SliceMiddle(stem, b, suffix);
    }
  }

  /** The copy count is in the name only above one copy; different counts
      above one give different names. */
  lemma {:induction false} FileNameCopies(o: OrdineDoc, t: TipoDocumento, n: int, m: int)
    ensures n <= 1 ==> FileName(o, t, n) == FileName(o, t, 1)
    ensures n > 1 && m > 1 && n != m ==> FileName(o, t, n) != FileName(o, t, m)
  {
    if n > 1 && m > 1 && n != m {
      NatToStringRoundTrip(n);
      NatToStringRoundTrip(m);
      CopiesShape(o, t, n);
      CopiesShape(o, t, m);
      DistinctMiddles(Stem(o, t) + "_copie", NatToString(n), NatToString(m), ".pdf");
    }
  }

  /** `generateOrdinePDF` / `generatePreventivoPDF`: one page per copy, all alike. */
  method GenerateDocument(o: OrdineDoc, t: TipoDocumento, numeroCopie: int)
    returns (pages: seq<Sheet<PageLayout>>, fileName: string)
    ensures numeroCopie >= 1 ==> (|pages| == numeroCopie &&
      forall k :: 0 <= k < |pages| ==> pages[k] == Drawn(PageOf(o, t)))
    ensures numeroCopie < 1 ==> pages == [Blank]
    ensures fileName == FileName(o, t, numeroCopie)
  {
    pages := RenderCopies(PageOf(o, t), numeroCopie);
    fileName := FileName(o, t, numeroCopie);
  }
}
