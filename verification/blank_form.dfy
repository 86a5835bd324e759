/**
 The blank order form ("modulo vuoto") printed for a product family: the
 family's products pre-listed at list price, padded with empty rows to at
 least 18, an optional pre-filled event name, and one page per copy.
 */
module BlankForm {
  import opened Wrappers
  import opened Strings
  import opened Copies

  datatype TipoModulo = Espositori | Ricambi | Gemme | Nido

  function TipoName(t: TipoModulo): string {
    match t
    case Espositori => "Espositori"
    case Ricambi => "Ricambi"
    case Gemme => "Gemme"
    case Nido => "Nido"
  }

  /** The category names that belong to each family; compared exactly. */
  function Categorie(t: TipoModulo): seq<string> {
    match t
    case Espositori => ["ESPOSITORI", "Nuovi", "Usati"]
    case Ricambi => ["Ricambi"]
    case Gemme => ["Gemme"]
    case Nido => ["Nido"]
  }

  /** A product as fetched for the form: code, name, list price, category name. */
  datatype ProdottoModulo = ProdottoModulo(codiceProdotto: string, nome: string, prezzoListino: Option<real>,
                                           categoria: Option<string>)

  datatype Voce = Voce(codice: string, nome: string, prezzo: real)

  predicate InFamily(t: TipoModulo, p: ProdottoModulo) {
    p.categoria.Some? && p.categoria.value in Categorie(t)
  }

  /** A missing (or zero) list price is printed as 0. */
  function VoceOf(p: ProdottoModulo): (v: Voce)
    ensures v.codice == p.codiceProdotto && v.nome == p.nome
    ensures v.prezzo == (if p.prezzoListino.Some? then p.prezzoListino.value else 0.0)
  {
    Voce(p.codiceProdotto, p.nome, OrZero(p.prezzoListino))
  }

  /** The products of the family, in fetch order. */
  function Filtra(t: TipoModulo, prodotti: seq<ProdottoModulo>): (voci: seq<Voce>)
    ensures |voci| <= |prodotti|
    ensures |voci| == 0 <==> forall k :: 0 <= k < |prodotti| ==> !InFamily(t, prodotti[k])
    decreases |prodotti|
  {
    if |prodotti| == 0 then []
    else
      var rest := Filtra(t, prodotti[1..]);
      assert forall k :: 1 <= k < |prodotti| ==> prodotti[k] == prodotti[1..][k - 1];
      if InFamily(t, prodotti[0]) then [VoceOf(prodotti[0])] + rest else rest
  }

  /** A listed entry comes from a product of the family, and every such product is listed. */
  lemma {:induction false} FiltraMembers(t: TipoModulo, prodotti: seq<ProdottoModulo>, v: Voce)
    ensures v in Filtra(t, prodotti) <==> exists k :: 0 <= k < |prodotti| && InFamily(t, prodotti[k]) && VoceOf(prodotti[k]) == v
    decreases |prodotti|
  {
    if |prodotti| > 0 {
      FiltraMembers(t, prodotti[1..], v);
      assert forall k :: 1 <= k < |prodotti| ==> prodotti[k] == prodotti[1..][k - 1];
      if v in Filtra(t, prodotti[1..]) {
        var k :| 0 <= k < |prodotti[1..]| && InFamily(t, prodotti[1..][k]) && VoceOf(prodotti[1..][k]) == v;
        assert InFamily(t, prodotti[k + 1]) && VoceOf(prodotti[k + 1]) == v;
      }
    }
  }

  /** Filtering the concatenation of two fetches filters each part. */
  lemma {:induction false} FiltraConcat(t: TipoModulo, a: seq<ProdottoModulo>, b: seq<ProdottoModulo>)
    ensures Filtra(t, a + b) == Filtra(t, a) + Filtra(t, b)
    decreases |a|
  {
    if |a| > 0 {
      assert (a + b)[1..] == a[1..] + b;
      FiltraConcat(t, a[1..], b);
    } else {
      assert a + b == b;
    }
  }

  const MinRighe: nat := 18

  datatype RigaModulo = Listed(voce: Voce) | EmptyRow

  function MaxNat(a: nat, b: nat): nat { if a >= b then a else b }

  /** The table body: each entry in order, then empty rows up to 18. */
  method TableRows(voci: seq<Voce>) returns (rows: seq<RigaModulo>)
    ensures |rows| == MaxNat(MinRighe, |voci|)
    ensures forall k :: 0 <= k < |voci| ==> rows[k] == Listed(voci[k])
    ensures forall k :: |voci| <= k < |rows| ==> rows[k] == EmptyRow
  {
    if |voci| > 0 {
      rows := seq(|voci|, k requires 0 <= k < |voci| => Listed(voci[k]));
      while |rows| < MinRighe
        invariant |voci| <= |rows| <= MaxNat(MinRighe, |voci|)
        invariant forall k :: 0 <= k < |voci| ==> rows[k] == Listed(voci[k])
        invariant forall k :: |voci| <= k < |rows| ==> rows[k] == EmptyRow
      {
        rows := rows + [EmptyRow];
      }
    } else {
      rows := seq(MinRighe, k => EmptyRow);
    }
  }

  /** The event field: the pre-filled name when there is one, else a line to write on. */
  datatype CampoEvento = Prefilled(nome: string) | WriteInLine

  function EventoField(evento: Option<string>): (f: CampoEvento)
    ensures f.Prefilled? <==> evento.Some? && evento.value != ""
    ensures f.Prefilled? ==> f.nome == evento.value
  {
    if evento.Some? && evento.value != "" then Prefilled(evento.value) else WriteInLine
  }

  function Intestazione(t: TipoModulo): (h: string)
    ensures |h| == 14 + |TipoName(t)|
    ensures h[14..] == ToUpper(TipoName(t))
  {
    "MODULO ORDINE " + ToUpper(TipoName(t))
  }

  datatype PaginaModulo = PaginaModulo(intestazione: string, evento: CampoEvento, righe: seq<RigaModulo>)

  /** `Modulo_{tipo}_{N}copie.pdf`; the count is written even for one copy
      (`ModuloFileNameReadsBack`, `ModuloFileNameInjective`). */
  function ModuloFileName(t: TipoModulo, numeroCopie: int): (f: string)
    ensures EndsWith(f, "copie.pdf")
    ensures f[..7] == "Modulo_"
  {
    var f := "Modulo_" + TipoName(t) + "_" + IntToString(numeroCopie) + "copie.pdf";
    assert f[..7] == "Modulo_";
    f
  }

  /** The part of the file name before the count. */
  function ModuloStem(t: TipoModulo): string {
    "Modulo_" + TipoName(t) + "_"
  }

  /** The family and the count read back from the file name: the family
      starts at position 7 with its own initial, and the count is the run
      between the stem and "copie.pdf", written with a leading "-" when
      negative. */
  lemma ModuloFileNameReadsBack(t: TipoModulo, n: int)
    ensures var f := ModuloFileName(t, n); var s := |ModuloStem(t)|;
      |f| >= s + 10 && f[..s] == ModuloStem(t) && f[7] == TipoName(t)[0] &&
      (n >= 0 ==> AllDigits(f[s..|f| - 9]) && DigitsValue(f[s..|f| - 9]) == n) &&
      (n < 0 ==> f[s] == '-' && AllDigits(f[s + 1..|f| - 9]) && DigitsValue(f[s + 1..|f| - 9]) == -n)
  {
    var f := ModuloFileName(t, n);
    var stem := ModuloStem(t);
    var i := IntToString(n);
    assert f == stem + i + "copie.pdf";
    assert stem[7] == TipoName(t)[0];
    SplitThree(stem, i, "copie.pdf");
    IntToStringReads(n);
    if n < 0 {
      assert f[|stem| + 1..|f| - 9] == i[1..];
    }
  }

  /** The three parts of a concatenation are its slices. */
  lemma SplitThree(a: string, b: string, c: string)
    ensures var f := a + b + c;
      f[..|a|] == a && f[|a|..|f| - |c|] == b && (|b| > 0 ==> f[|a|] == b[0])
  {
  }

  /** Different families or different counts never share a file name. */
  lemma ModuloFileNameInjective(t1: TipoModulo, m: int, t2: TipoModulo, n: int)
    requires t1 != t2 || m != n
    ensures ModuloFileName(t1, m) != ModuloFileName(t2, n)
  {
    var f1, f2 := ModuloFileName(t1, m), ModuloFileName(t2, n);
    if t1 != t2 {
      assert f1[7] == TipoName(t1)[0] && f2[7] == TipoName(t2)[0];
    } else {
      var stem := ModuloStem(t1);
      assert f1 == stem + IntToString(m) + "copie.pdf";
      assert f2 == stem + IntToString(n) + "copie.pdf";
      SplitThree(stem, IntToString(m), "copie.pdf");
      SplitThree(stem, IntToString(n), "copie.pdf");
      IntToStringInjective(m, n);
    }
  }

  /** `generateModuloVuoto`: every copy shows the same filtered table. */
  method GenerateModuloVuoto(t: TipoModulo, numeroCopie: int, prodotti: seq<ProdottoModulo>, evento: Option<string>)
    returns (pages: seq<Sheet<PaginaModulo>>, fileName: string, righe: seq<RigaModulo>)
    ensures |righe| == MaxNat(MinRighe, |Filtra(t, prodotti)|)
    ensures forall k :: 0 <= k < |Filtra(t, prodotti)| ==> righe[k] == Listed(Filtra(t, prodotti)[k])
    ensures forall k :: |Filtra(t, prodotti)| <= k < |righe| ==> righe[k] == EmptyRow
    ensures numeroCopie >= 1 ==> (|pages| == numeroCopie && forall k :: 0 <= k < |pages| ==>
      pages[k] == Drawn(PaginaModulo(Intestazione(t), EventoField(evento), righe)))
    ensures numeroCopie < 1 ==> pages == [Blank]
    ensures fileName == ModuloFileName(t, numeroCopie)
  {
    righe := TableRows(Filtra(t, prodotti));
    pages := RenderCopies(PaginaModulo(Intestazione(t), EventoField(evento), righe), numeroCopie);
    fileName := ModuloFileName(t, numeroCopie);
  }
}
