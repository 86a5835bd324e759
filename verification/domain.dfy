/**
 The records of the back office (customers, categories, products, orders and
 order lines) and the numeric limits the forms enforce.  Nullable columns are
 `Option`s; identifiers are the backend's opaque strings.
 */
module Domain {
  import opened Wrappers

  /** Lifecycle of an order: `bozza` (draft), `confermato`, `evaso` (fulfilled), `annullato`. */
  datatype StatoOrdine = Bozza | Confermato | Evaso | Annullato

  /** The name of a state as stored and as used by the page's filter select. */
  function StatoName(s: StatoOrdine): string {
    match s
    case Bozza => "bozza"
    case Confermato => "confermato"
    case Evaso => "evaso"
    case Annullato => "annullato"
  }

  /** Different states have different names. */
  lemma StatoNameInjective(a: StatoOrdine, b: StatoOrdine)
    ensures StatoName(a) == StatoName(b) ==> a == b
  {
    if StatoName(a) == StatoName(b) {
      assert |StatoName(a)| == |StatoName(b)| && StatoName(a)[0] == StatoName(b)[0];
    }
  }

  /** Order-type tag of a category: display units (`espositori`) or everything else. */
  datatype TipoOrdine = Espositori | NonEspositori

  /** How display units are sold: direct sale or Grenke leasing. */
  datatype TipoVendita = Diretto | Leasing

  // Numeric limits of the forms.
  const MaxScontoPercentuale: real := 100.0
  const MinScontoPercentuale: real := 0.0
  const MaxQuantita: real := 9999.99
  const MinQuantita: real := 0.01
  const MaxPrezzo: real := 999999.99
  const MinPrezzo: real := 0.0

  // Fixed error texts of the forms.
  const RequiredField: string := "Questo campo è obbligatorio"
  const InvalidEmail: string := "Email non valida"
  const InvalidPartitaIva: string := "Partita IVA non valida (11 cifre)"
  const InvalidCodiceFiscale: string := "Codice Fiscale non valido"

  datatype Cliente = Cliente(
    id: string,
    ragioneSociale: string,
    nomeReferente: Option<string>,
    email: Option<string>,
    telefono: Option<string>,
    cellulare: Option<string>,
    partitaIva: Option<string>,
    codiceFiscale: Option<string>,
    indirizzo: Option<string>,
    citta: Option<string>,
    cap: Option<string>,
    provincia: Option<string>,
    note: Option<string>,
    attivo: bool,
    importato: bool)

  datatype Categoria = Categoria(
    id: string,
    nome: string,
    parentId: Option<string>,
    tipoOrdine: TipoOrdine,
    ordineVisualizzazione: int,
    attivo: bool)

  /** The category columns joined onto a product row by the product queries. */
  datatype CategoriaRef = CategoriaRef(nome: string, tipoOrdine: TipoOrdine)

  datatype Prodotto = Prodotto(
    id: string,
    categoriaId: string,
    codiceProdotto: string,
    nome: string,
    descrizione: Option<string>,
    prezzoListino: real,
    unitaMisura: string,
    disponibile: bool,
    note: Option<string>,
    categoria: Option<CategoriaRef>)

  datatype Ordine = Ordine(
    id: string,
    numeroOrdine: nat,
    clienteId: string,
    nomeEvento: Option<string>,
    dataOrdine: string,
    stato: StatoOrdine,
    haEspositori: bool,
    haAltriProdotti: bool,
    tipoVenditaEspositori: Option<TipoVendita>,
    subtotale: real,
    scontoPercentuale: Option<real>,
    scontoValore: Option<real>,
    totale: real,
    note: Option<string>)

  /** The order fields edited by the order form and sent for insertion or update. */
  datatype OrdineInsert = OrdineInsert(
    clienteId: string,
    nomeEvento: string,
    dataOrdine: string,
    stato: StatoOrdine,
    subtotale: real,
    scontoPercentuale: Option<real>,
    scontoValore: Option<real>,
    totale: real,
    note: string,
    haEspositori: bool,
    haAltriProdotti: bool,
    tipoVenditaEspositori: Option<TipoVendita>)

  /** An order line as sent for insertion, before the order id is attached. */
  datatype RigaOrdineCreate = RigaOrdineCreate(
    prodottoId: string,
    quantita: real,
    prezzoUnitario: real,
    subtotaleRiga: Option<real>,
    noteRiga: Option<string>,
    ordineRiga: int)

  /** An order line as inserted: the create payload plus its order's id. */
  datatype RigaOrdine = RigaOrdine(ordineId: string, line: RigaOrdineCreate)
}
