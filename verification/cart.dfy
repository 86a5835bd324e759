/**
 The order form: the cart of order lines, the money derived from it
 (subtotal, discount, total), the add/remove/update reducers, validation and
 the payload handed to the save callback.
 */
module OrdineForm {
  import opened Wrappers
  import opened Strings
  import opened Domain

  /** A cart line: a product reference, quantity, unit price and free note. */
  datatype RigaCarrello = RigaCarrello(
    prodottoId: string,
    prodotto: Option<Prodotto>,
    quantita: real,
    prezzoUnitario: real,
    noteRiga: string)

  type Carrello = seq<RigaCarrello>

  function Amount(r: RigaCarrello): real { r.quantita * r.prezzoUnitario }

  /** The running sum `reduce((sum, riga) => sum + quantita * prezzo, 0)`. */
  function Subtotal(c: Carrello): real
    decreases |c|
  {
    if |c| == 0 then 0.0 else Subtotal(c[..|c| - 1]) + Amount(c[|c| - 1])
  }

  /** The subtotal of two carts laid end to end is the sum of their subtotals. */
  lemma {:induction false} SubtotalConcat(a: Carrello, b: Carrello)
    ensures Subtotal(a + b) == Subtotal(a) + Subtotal(b)
    decreases |b|
  {
    if |b| > 0 {
      assert (a + b)[..|a + b| - 1] == a + b[..|b| - 1];
      SubtotalConcat(a, b[..|b| - 1]);
    } else {
      assert a + b == a;
    }
  }

  /** Summing from the front gives the same subtotal. */
  lemma SubtotalCons(r: RigaCarrello, c: Carrello)
    ensures Subtotal([r] + c) == Amount(r) + Subtotal(c)
  {
    SubtotalConcat([r], c);
    assert [r][..0] == [];
  }

  /** Lines with non-negative quantity and price give a non-negative subtotal. */
  lemma {:induction false} SubtotalNonNegative(c: Carrello)
    requires forall k :: 0 <= k < |c| ==> c[k].quantita >= 0.0 && c[k].prezzoUnitario >= 0.0
    ensures Subtotal(c) >= 0.0
    decreases |c|
  {
    if |c| > 0 {
      SubtotalNonNegative(c[..|c| - 1]);
    }
  }

  /**
   The discount of the form.  A set percentage (zero included) takes the
   percentage of the subtotal; otherwise the absolute value, absent counting
   as zero.
   */
  function Discount(subtotale: real, percentuale: Option<real>, valore: Option<real>): real {
    if percentuale.Some? then subtotale * percentuale.value / 100.0 else OrZero(valore)
  }

  function Total(subtotale: real, percentuale: Option<real>, valore: Option<real>): real {
    subtotale - Discount(subtotale, percentuale, valore)
  }

  /**
   The effect that copies the computed totals into the form: the subtotal,
   the displayed discount and the total are stored, and a percentage that is
   not positive is cleared, leaving the discount it gave in the absolute value.
   */
  function SyncEffect(f: OrdineInsert, c: Carrello): (g: OrdineInsert)
    ensures g.subtotale == Subtotal(c)
    ensures g.scontoPercentuale.Some? <==> f.scontoPercentuale.Some? && f.scontoPercentuale.value > 0.0
    ensures g.scontoPercentuale.Some? ==> g.scontoPercentuale == f.scontoPercentuale
    ensures g.(subtotale := f.subtotale, scontoPercentuale := f.scontoPercentuale,
      scontoValore := f.scontoValore, totale := f.totale) == f
  {
    var s := Subtotal(c);
    f.(subtotale := s,
      scontoPercentuale := if f.scontoPercentuale.Some? && f.scontoPercentuale.value > 0.0
        then f.scontoPercentuale else None,
      scontoValore := Some(Discount(s, f.scontoPercentuale, f.scontoValore)),
      totale := Total(s, f.scontoPercentuale, f.scontoValore))
  }

  /** The form after the effect has run for cart `c`: the stored figures are
      the ones it displays, and any percentage left is positive. */
  predicate Synced(f: OrdineInsert, c: Carrello) {
    var s := Subtotal(c);
    f.subtotale == s &&
    (f.scontoPercentuale.Some? ==> f.scontoPercentuale.value > 0.0) &&
    f.scontoValore == Some(Discount(s, f.scontoPercentuale, f.scontoValore)) &&
    f.totale == Total(s, f.scontoPercentuale, f.scontoValore)
  }

  /** One run of the effect keeps the displayed discount and total and leaves
      the form synced, so the effect settles after its first re-run. */
  lemma SyncEffectSettles(f: OrdineInsert, c: Carrello)
    ensures var g := SyncEffect(f, c);
      Discount(Subtotal(c), g.scontoPercentuale, g.scontoValore) ==
        Discount(Subtotal(c), f.scontoPercentuale, f.scontoValore) &&
      Total(Subtotal(c), g.scontoPercentuale, g.scontoValore) ==
        Total(Subtotal(c), f.scontoPercentuale, f.scontoValore) &&
      Synced(g, c)
  {
  }

  /** The synced forms are exactly the fixpoints of the effect. */
  lemma SyncedIffFixpoint(f: OrdineInsert, c: Carrello)
    ensures Synced(f, c) <==> SyncEffect(f, c) == f
  {
  }

  /** A percentage in the admitted range takes between nothing and all of a
      non-negative subtotal, so the total stays between 0 and the subtotal. */
  lemma PercentDiscountBounds(subtotale: real, p: real, valore: Option<real>)
    requires subtotale >= 0.0 && MinScontoPercentuale <= p <= MaxScontoPercentuale
    ensures 0.0 <= Discount(subtotale, Some(p), valore) <= subtotale
    ensures 0.0 <= Total(subtotale, Some(p), valore) <= subtotale
  {
    assert 0.0 <= subtotale * p <= subtotale * 100.0 by {
      assert subtotale * (100.0 - p) >= 0.0;
    }
    assert Discount(subtotale, Some(p), valore) == subtotale * p / 100.0;
  }

  /** The absolute value is ignored as soon as a percentage is set, zero included. */
  lemma PercentOverridesValue(subtotale: real, p: real, v1: Option<real>, v2: Option<real>)
    ensures Discount(subtotale, Some(p), v1) == Discount(subtotale, Some(p), v2)
    ensures Discount(subtotale, Some(0.0), v1) == 0.0
  {
  }

  /** Two lines 2 × 100 and 1 × 50 with 10% off: subtotal 250, discount 25,
      total 225; with a 30 absolute discount instead, total 220. */
  lemma DiscountScenario()
    ensures var c := [RigaCarrello("a", None, 2.0, 100.0, ""), RigaCarrello("b", None, 1.0, 50.0, "")];
      Subtotal(c) == 250.0 &&
      Discount(Subtotal(c), Some(10.0), None) == 25.0 && Total(Subtotal(c), Some(10.0), None) == 225.0 &&
      Total(Subtotal(c), None, Some(30.0)) == 220.0 && Total(Subtotal(c), None, None) == 250.0
  {
    var c := [RigaCarrello("a", None, 2.0, 100.0, ""), RigaCarrello("b", None, 1.0, 50.0, "")];
    assert c[..1][..0] == [];
  }

  // ---------------------------------------------------------------- product lookup

  /** `prodotti.find(p => p.id === id)`: the first product with that id. */
  function FindProdotto(prodotti: seq<Prodotto>, id: string): (r: Option<Prodotto>)
    ensures r.None? <==> forall k :: 0 <= k < |prodotti| ==> prodotti[k].id != id
    ensures r.Some? ==> exists k :: (0 <= k < |prodotti| && prodotti[k] == r.value &&
      forall j :: 0 <= j < k ==> prodotti[j].id != id)
    ensures r.Some? ==> r.value.id == id
    decreases |prodotti|
  {
    if |prodotti| == 0 then None
    else if prodotti[0].id == id then Some(prodotti[0])
    else
      var rest := FindProdotto(prodotti[1..], id);
      assert forall k :: 1 <= k < |prodotti| ==> prodotti[k] == prodotti[1..][k - 1];
      rest
  }

  predicate IsEspositore(p: Option<Prodotto>) {
    p.Some? && p.value.categoria.Some? && p.value.categoria.value.tipoOrdine == Espositori
  }

  /** `hasEspositori`: some line's product, looked up by id in the catalogue,
      belongs to a display-unit category. */
  function HasEspositori(c: Carrello, prodotti: seq<Prodotto>): (b: bool)
    ensures b <==> exists k :: 0 <= k < |c| && IsEspositore(FindProdotto(prodotti, c[k].prodottoId))
    decreases |c|
  {
    if |c| == 0 then false
    else
      var rest := HasEspositori(c[1..], prodotti);
      assert forall k :: 1 <= k < |c| ==> c[k] == c[1..][k - 1];
      IsEspositore(FindProdotto(prodotti, c[0].prodottoId)) || rest
  }

  // ---------------------------------------------------------------- cart reducers

  function Ids(c: Carrello): seq<string> {
    seq(|c|, k requires 0 <= k < |c| => c[k].prodottoId)
  }

  /** No product appears on two lines. */
  predicate UniqueIds(c: Carrello) {
    forall i, j :: 0 <= i < j < |c| ==> c[i].prodottoId != c[j].prodottoId
  }

  predicate InCart(c: Carrello, id: string) {
    exists k :: 0 <= k < |c| && c[k].prodottoId == id
  }

  /**
   The cart change of `handleAggiungiProdotto` once the product is known: a
   product already in the cart has the quantity summed into its line, any
   other product gets one new line at list price with an empty note.
   */
  function AddLine(c: Carrello, p: Prodotto, q: real): (r: Carrello)
    ensures InCart(c, p.id) ==> |r| == |c| && forall k :: 0 <= k < |c| ==>
      r[k] == if c[k].prodottoId == p.id then c[k].(quantita := c[k].quantita + q) else c[k]
    ensures !InCart(c, p.id) ==> r == c + [RigaCarrello(p.id, Some(p), q, p.prezzoListino, "")]
    ensures Ids(r) == if InCart(c, p.id) then Ids(c) else Ids(c) + [p.id]
  {
    if InCart(c, p.id) then Merge(c, p.id, q)
    else c + [RigaCarrello(p.id, Some(p), q, p.prezzoListino, "")]
  }

  /** Sum `q` into the quantity of every line of product `id`. */
  function Merge(c: Carrello, id: string, q: real): (r: Carrello)
    ensures |r| == |c|
    ensures forall k :: 0 <= k < |c| ==>
      r[k] == if c[k].prodottoId == id then c[k].(quantita := c[k].quantita + q) else c[k]
  {
    seq(|c|, k requires 0 <= k < |c| =>
      if c[k].prodottoId == id then c[k].(quantita := c[k].quantita + q) else c[k])
  }

  /** Adding keeps every product on at most one line. */
  lemma AddLineKeepsUnique(c: Carrello, p: Prodotto, q: real)
    requires UniqueIds(c)
    ensures UniqueIds(AddLine(c, p, q))
  {
    var r := AddLine(c, p, q);
    if !InCart(c, p.id) {
      forall i, j | 0 <= i < j < |r| ensures r[i].prodottoId != r[j].prodottoId {
        if j == |c| {
          assert r[i].prodottoId == c[i].prodottoId;
        }
      }
    }
  }

  /** Merging into the one line of a product with unique ids adds `q` times its price. */
  lemma {:induction false} SubtotalMerge(c: Carrello, id: string, q: real, k: nat)
    requires UniqueIds(c) && k < |c| && c[k].prodottoId == id
    ensures Subtotal(Merge(c, id, q)) == Subtotal(c) + q * c[k].prezzoUnitario
    decreases |c|
  {
    var r := Merge(c, id, q);
    var n := |c| - 1;
    var c' := c[..n];
    assert Subtotal(r) == Subtotal(r[..n]) + Amount(r[n]);
    MergePrefix(c, id, q, n);
    UniquePrefix(c, n);
    if k == n {
      assert !InCart(c', id);
      MergeUntouched(c', id, q);
      MergedAmount(c[n], q);
    } else {
      assert c'[k] == c[k];
      SubtotalMerge(c', id, q, k);
      assert r[n] == c[n];
      assert Subtotal(c) == Subtotal(c') + Amount(c[n]);
    }
  }

  lemma MergePrefix(c: Carrello, id: string, q: real, n: nat)
    requires n <= |c|
    ensures Merge(c, id, q)[..n] == Merge(c[..n], id, q)
  {
  }

  lemma UniquePrefix(c: Carrello, n: nat)
    requires UniqueIds(c) && n <= |c|
    ensures UniqueIds(c[..n])
  {
    var c' := c[..n];
    forall i, j | 0 <= i < j < |c'| ensures c'[i].prodottoId != c'[j].prodottoId {
      assert c'[i] == c[i] && c'[j] == c[j];
    }
  }

  /** Merging into a cart without the product changes nothing. */
  lemma MergeUntouched(c: Carrello, id: string, q: real)
    requires !InCart(c, id)
    ensures Merge(c, id, q) == c
  {
  }

  /** A merged line's amount grows by `q` times its price. */
  lemma MergedAmount(r: RigaCarrello, q: real)
    ensures Amount(r.(quantita := r.quantita + q)) == Amount(r) + q * r.prezzoUnitario
  {
    assert (r.quantita + q) * r.prezzoUnitario == r.quantita * r.prezzoUnitario + q * r.prezzoUnitario;
  }

  /** Adding `q` of a product new to the cart raises the subtotal by `q` times its list price. */
  lemma AddNewLineSubtotal(c: Carrello, p: Prodotto, q: real)
    requires !InCart(c, p.id)
    ensures Subtotal(AddLine(c, p, q)) == Subtotal(c) + q * p.prezzoListino
  {
    var n := RigaCarrello(p.id, Some(p), q, p.prezzoListino, "");
    assert (c + [n])[..|c|] == c;
  }

  /** Adding `q` of a product already in the cart raises the subtotal by `q`
      times the price on its line, whatever the list price now is. */
  lemma AddMergedLineSubtotal(c: Carrello, p: Prodotto, q: real, k: nat)
    requires UniqueIds(c) && k < |c| && c[k].prodottoId == p.id
    ensures Subtotal(AddLine(c, p, q)) == Subtotal(c) + q * c[k].prezzoUnitario
  {
    assert InCart(c, p.id);
    SubtotalMerge(c, p.id, q, k);
  }

  /** `handleRimuoviProdotto`: drop the lines of that product, keeping the rest in order. */
  function RemoveLine(c: Carrello, id: string): (r: Carrello)
    ensures |r| <= |c|
    ensures forall k :: 0 <= k < |r| ==> r[k].prodottoId != id
    ensures forall x :: x in r <==> x in c && x.prodottoId != id
    decreases |c|
  {
    if |c| == 0 then []
    else if c[0].prodottoId == id then RemoveLine(c[1..], id)
    else [c[0]] + RemoveLine(c[1..], id)
  }

  /** Removing a product subtracts its one line from the subtotal. */
  lemma {:induction false} RemoveLineSubtotal(c: Carrello, k: nat)
    requires UniqueIds(c) && k < |c|
    ensures Subtotal(RemoveLine(c, c[k].prodottoId)) == Subtotal(c) - Amount(c[k])
    decreases |c|
  {
    var id := c[k].prodottoId;
    assert c == [c[0]] + c[1..];
    SubtotalCons(c[0], c[1..]);
    if k == 0 {
      assert !InCart(c[1..], id) by {
        forall j | 0 <= j < |c[1..]| ensures c[1..][j].prodottoId != id {
          assert c[1..][j] == c[j + 1];
        }
      }
      RemoveMissing(c[1..], id);
    } else {
      assert c[1..][k - 1] == c[k];
      assert UniqueIds(c[1..]) by {
        forall i, j | 0 <= i < j < |c[1..]| ensures c[1..][i].prodottoId != c[1..][j].prodottoId {
          assert c[1..][i] == c[i + 1] && c[1..][j] == c[j + 1];
        }
      }
      RemoveLineSubtotal(c[1..], k - 1);
      assert c[0].prodottoId != id;
      SubtotalCons(c[0], RemoveLine(c[1..], id));
    }
  }

  /** Removing a product that is not in the cart changes nothing. */
  lemma {:induction false} RemoveMissing(c: Carrello, id: string)
    requires !InCart(c, id)
    ensures RemoveLine(c, id) == c
    decreases |c|
  {
    if |c| > 0 {
      assert c[0].prodottoId != id;
      assert !InCart(c[1..], id) by {
        forall j | 0 <= j < |c[1..]| ensures c[1..][j].prodottoId != id {
          assert c[1..][j] == c[j + 1];
        }
      }
      RemoveMissing(c[1..], id);
      assert c == [c[0]] + c[1..];
    }
  }

  /** `handleUpdateQuantita`: a quantity of zero or less removes the product;
      any other quantity replaces the quantity on that product's line only. */
  function SetQuantita(c: Carrello, id: string, q: real): (r: Carrello)
    ensures q <= 0.0 ==> r == RemoveLine(c, id)
    ensures q > 0.0 ==> |r| == |c| && Ids(r) == Ids(c) && forall k :: 0 <= k < |c| ==>
      r[k].quantita == (if c[k].prodottoId == id then q else c[k].quantita) &&
      r[k].(quantita := c[k].quantita) == c[k]
  {
    if q <= 0.0 then RemoveLine(c, id)
    else
      seq(|c|, k requires 0 <= k < |c| =>
        if c[k].prodottoId == id then c[k].(quantita := q) else c[k])
  }

  /** `handleUpdatePrezzo`: only the price on that product's line changes. */
  function SetPrezzo(c: Carrello, id: string, p: real): (r: Carrello)
    ensures |r| == |c| && Ids(r) == Ids(c)
    ensures forall k :: 0 <= k < |c| ==>
      r[k].prezzoUnitario == (if c[k].prodottoId == id then p else c[k].prezzoUnitario) &&
      r[k].(prezzoUnitario := c[k].prezzoUnitario) == c[k]
  {
    seq(|c|, k requires 0 <= k < |c| =>
      if c[k].prodottoId == id then c[k].(prezzoUnitario := p) else c[k])
  }

  /** Ids stay unique under removal and both updates. */
  lemma UpdatesKeepUnique(c: Carrello, id: string, x: real)
    requires UniqueIds(c)
    ensures UniqueIds(RemoveLine(c, id))
    ensures UniqueIds(SetQuantita(c, id, x))
    ensures UniqueIds(SetPrezzo(c, id, x))
  {
    RemoveKeepsUnique(c, id);
    var a := SetQuantita(c, id, x);
    if x > 0.0 {
      forall i, j | 0 <= i < j < |a| ensures a[i].prodottoId != a[j].prodottoId {
        assert Ids(a)[i] == Ids(c)[i] && Ids(a)[j] == Ids(c)[j];
      }
    }
    var b := SetPrezzo(c, id, x);
    forall i, j | 0 <= i < j < |b| ensures b[i].prodottoId != b[j].prodottoId {
      assert Ids(b)[i] == Ids(c)[i] && Ids(b)[j] == Ids(c)[j];
    }
  }

  lemma {:induction false} RemoveKeepsUnique(c: Carrello, id: string)
    requires UniqueIds(c)
    ensures UniqueIds(RemoveLine(c, id))
    decreases |c|
  {
    if |c| > 0 {
      assert UniqueIds(c[1..]) by {
        forall i, j | 0 <= i < j < |c[1..]| ensures c[1..][i].prodottoId != c[1..][j].prodottoId {
          assert c[1..][i] == c[i + 1] && c[1..][j] == c[j + 1];
        }
      }
      RemoveKeepsUnique(c[1..], id);
      if c[0].prodottoId != id {
        var rest := RemoveLine(c[1..], id);
        var r := [c[0]] + rest;
        forall i, j | 0 <= i < j < |r| ensures r[i].prodottoId != r[j].prodottoId {
          if i == 0 {
            assert r[j] in rest;
            assert r[j] in c[1..];
            var m :| 0 <= m < |c[1..]| && c[1..][m] == r[j];
            assert c[m + 1] == r[j];
          } else {
            assert r[i] == rest[i - 1] && r[j] == rest[j - 1];
          }
        }
      }
    }
  }

  // ---------------------------------------------------------------- adding from the picker

  /** The product picker beside the cart: the chosen id and the typed quantity. */
  datatype Picker = Picker(selezionato: string, quantita: real)

  datatype AddOutcome =
    | Added(carrello: Carrello)
    | NoProductSelected
    | InvalidQuantity
    | UnknownProduct

  /**
   `handleAggiungiProdotto`: refuse an empty selection, then a quantity
   outside (0, 9999.99], then silently an id missing from the catalogue;
   otherwise add the product.
   */
  function Aggiungi(c: Carrello, picker: Picker, prodotti: seq<Prodotto>): (o: AddOutcome)
    ensures picker.selezionato == "" <==> o.NoProductSelected?
    ensures o.InvalidQuantity? <==>
      picker.selezionato != "" && (picker.quantita <= 0.0 || picker.quantita > MaxQuantita)
    ensures o.UnknownProduct? <==>
      picker.selezionato != "" && 0.0 < picker.quantita <= MaxQuantita &&
      forall k :: 0 <= k < |prodotti| ==> prodotti[k].id != picker.selezionato
    ensures o.Added? ==> exists p :: (p in prodotti && p.id == picker.selezionato &&
      o.carrello == AddLine(c, p, picker.quantita))
  {
    if picker.selezionato == "" then NoProductSelected
    else if picker.quantita <= 0.0 || picker.quantita > MaxQuantita then InvalidQuantity
    else match FindProdotto(prodotti, picker.selezionato)
      case None => UnknownProduct
      case Some(p) => Added(AddLine(c, p, picker.quantita))
  }

  /** The form state touched by adding: cart, picker and the error map. */
  datatype AddState = AddState(carrello: Carrello, picker: Picker, errors: map<string, string>)

  /** The state after pressing "add": a refusal only records its error and an
      unknown id changes nothing, while a success resets the picker to no
      product and quantity 1 and clears both picker errors. */
  function OnAggiungi(st: AddState, prodotti: seq<Prodotto>): (r: AddState)
    ensures r.carrello != st.carrello ==> Aggiungi(st.carrello, st.picker, prodotti).Added?
    ensures !Aggiungi(st.carrello, st.picker, prodotti).Added? ==>
      r.carrello == st.carrello && r.picker == st.picker
    ensures Aggiungi(st.carrello, st.picker, prodotti).NoProductSelected? ==>
      r.errors == st.errors["prodotto" := "Seleziona un prodotto"]
    ensures Aggiungi(st.carrello, st.picker, prodotti).InvalidQuantity? ==>
      r.errors == st.errors["quantita" := "Quantità non valida"]
    ensures Aggiungi(st.carrello, st.picker, prodotti).UnknownProduct? ==> r == st
    ensures Aggiungi(st.carrello, st.picker, prodotti).Added? ==>
      r.picker == Picker("", 1.0) &&
      "prodotto" in r.errors && r.errors["prodotto"] == "" &&
      "quantita" in r.errors && r.errors["quantita"] == ""
  {
    match Aggiungi(st.carrello, st.picker, prodotti)
    case NoProductSelected => st.(errors := st.errors["prodotto" := "Seleziona un prodotto"])
    case InvalidQuantity => st.(errors := st.errors["quantita" := "Quantità non valida"])
    case UnknownProduct => st
    case Added(c) => AddState(c, Picker("", 1.0), st.errors["prodotto" := ""]["quantita" := ""])
  }

  // ---------------------------------------------------------------- validation

  datatype Campo = ClienteId | NomeEvento | CarrelloCampo | ScontoPercentuale

  const ScontoRangeMessage: string := "Lo sconto deve essere tra 0% e 100%"
  const CarrelloVuoto: string := "Aggiungi almeno un prodotto"

  /** The errors `validate` records, one per failing field. */
  function Validate(f: OrdineInsert, c: Carrello): (errs: map<Campo, string>)
    ensures ClienteId in errs <==> f.clienteId == ""
    ensures NomeEvento in errs <==> IsBlank(f.nomeEvento)
    ensures CarrelloCampo in errs <==> |c| == 0
    ensures ScontoPercentuale in errs <==> (f.scontoPercentuale.Some? &&
      !(MinScontoPercentuale <= f.scontoPercentuale.value <= MaxScontoPercentuale))
    ensures forall k :: k in errs && k != CarrelloCampo && k != ScontoPercentuale ==> errs[k] == RequiredField
    ensures CarrelloCampo in errs ==> errs[CarrelloCampo] == CarrelloVuoto
    ensures ScontoPercentuale in errs ==> errs[ScontoPercentuale] == ScontoRangeMessage
  {
    TrimEmptyIff(f.nomeEvento);
    ErrorsOf(f.clienteId == "", Trim(f.nomeEvento) == "", |c| == 0, f.scontoPercentuale)
  }

  /** The error map given which required fields are missing and the percentage. */
  function ErrorsOf(cliente: bool, evento: bool, vuoto: bool, sconto: Option<real>): (errs: map<Campo, string>)
    ensures ClienteId in errs <==> cliente
    ensures NomeEvento in errs <==> evento
    ensures CarrelloCampo in errs <==> vuoto
    ensures ScontoPercentuale in errs <==> (sconto.Some? &&
      !(MinScontoPercentuale <= sconto.value <= MaxScontoPercentuale))
    ensures forall k :: k in errs && k != CarrelloCampo && k != ScontoPercentuale ==> errs[k] == RequiredField
    ensures CarrelloCampo in errs ==> errs[CarrelloCampo] == CarrelloVuoto
    ensures ScontoPercentuale in errs ==> errs[ScontoPercentuale] == ScontoRangeMessage
  {
    var e0: map<Campo, string> := map[];
    var e1 := if cliente then e0[ClienteId := RequiredField] else e0;
    var e2 := if evento then e1[NomeEvento := RequiredField] else e1;
    var e3 := if vuoto then e2[CarrelloCampo := CarrelloVuoto] else e2;
    if sconto.Some? && (sconto.value < MinScontoPercentuale || sconto.value > MaxScontoPercentuale)
    then e3[ScontoPercentuale := ScontoRangeMessage] else e3
  }

  /** `validate()` returns true iff no error was recorded. */
  predicate IsValid(f: OrdineInsert, c: Carrello) {
    |Validate(f, c)| == 0
  }

  /** The form is valid iff a client is chosen, the event name has a
      non-space character, the cart has a line and a set percentage lies in
      [0, 100]. */
  lemma ValidIff(f: OrdineInsert, c: Carrello)
    ensures IsValid(f, c) <==>
      f.clienteId != "" && !IsBlank(f.nomeEvento) && |c| > 0 &&
      (f.scontoPercentuale.Some? ==> 0.0 <= f.scontoPercentuale.value <= 100.0)
  {
    var e := Validate(f, c);
    if !IsValid(f, c) {
      var k :| k in e;
    }
  }

  // ---------------------------------------------------------------- payload

  /** The order lines sent on save: cart order, line subtotal q × p, 1-based
      position, an empty note sent as null. */
  function BuildRighe(c: Carrello): (righe: seq<RigaOrdineCreate>)
    ensures |righe| == |c|
    ensures forall k :: 0 <= k < |c| ==>
      righe[k].prodottoId == c[k].prodottoId && righe[k].quantita == c[k].quantita &&
      righe[k].prezzoUnitario == c[k].prezzoUnitario && righe[k].ordineRiga == k + 1 &&
      righe[k].subtotaleRiga == Some(Amount(c[k]))
    ensures forall k :: 0 <= k < |c| ==>
      righe[k].noteRiga == if c[k].noteRiga == "" then None else Some(c[k].noteRiga)
  {
    seq(|c|, k requires 0 <= k < |c| => BuildRiga(c[k], k))
  }

  function BuildRiga(r: RigaCarrello, k: nat): RigaOrdineCreate {
    RigaOrdineCreate(r.prodottoId, r.quantita, r.prezzoUnitario, Some(Amount(r)),
      if r.noteRiga == "" then None else Some(r.noteRiga), k + 1)
  }

  /**
   The order sent on save: the form fields unchanged except that the
   percentage survives only when positive, the absolute value becomes a
   number (absent counting as 0), and the sale mode is sent only when the
   cart holds a display unit.  `haEspositori` is passed through as the form
   holds it.
   */
  function BuildOrdine(f: OrdineInsert, tipo: TipoVendita, hasEspositori: bool): (o: OrdineInsert)
    ensures o.scontoPercentuale.Some? <==> f.scontoPercentuale.Some? && f.scontoPercentuale.value > 0.0
    ensures o.scontoPercentuale.Some? ==> o.scontoPercentuale == f.scontoPercentuale
    ensures o.scontoValore == Some(OrZero(f.scontoValore))
    ensures o.tipoVenditaEspositori.Some? <==> hasEspositori
    ensures o.tipoVenditaEspositori.Some? ==> o.tipoVenditaEspositori.value == tipo
    ensures o.(scontoPercentuale := f.scontoPercentuale, scontoValore := f.scontoValore,
      tipoVenditaEspositori := f.tipoVenditaEspositori) == f
  {
    f.(scontoPercentuale := if f.scontoPercentuale.Some? && f.scontoPercentuale.value > 0.0
        then f.scontoPercentuale else None,
      scontoValore := Some(OrZero(f.scontoValore)),
      tipoVenditaEspositori := if hasEspositori then Some(tipo) else None)
  }

  /** `handleSubmit`: the save callback receives the order and its lines only
      when the form validates. */
  function Submit(f: OrdineInsert, tipo: TipoVendita, c: Carrello, prodotti: seq<Prodotto>)
    : (call: Option<(OrdineInsert, seq<RigaOrdineCreate>)>)
    ensures call.Some? <==> IsValid(f, c)
    ensures call.Some? ==> (call.value.0 == BuildOrdine(f, tipo, HasEspositori(c, prodotti)) &&
      call.value.1 == BuildRighe(c))
  {
    if IsValid(f, c) then Some((BuildOrdine(f, tipo, HasEspositori(c, prodotti)), BuildRighe(c)))
    else None
  }
}
