/**
 The product form: loading a stored product for editing, field changes
 (text, numeric price, check box), the code-generation guard, validation
 and the guarded save, and the parent/child grouping of the category list.
 */
module ProdottoForm {
  import opened Wrappers
  import opened Strings
  import opened Domain

  datatype Campo = CategoriaId | CodiceProdotto | Nome | Descrizione | PrezzoListino | UnitaMisura | Disponibile | NoteCampo

  datatype FormData = FormData(
    categoriaId: string, codiceProdotto: string, nome: string, descrizione: string,
    prezzoListino: real, unitaMisura: string, disponibile: bool, note: string)

  const NomeFirst := "Inserisci prima il nome del prodotto"
  const PrezzoTooLow := "Il prezzo deve essere almeno 0"
  const PrezzoTooHigh := "Il prezzo non può superare 999999.99"

  /** Loading a stored product: absent description and notes become "", an
      empty unit becomes "pz". */
  function FromProdotto(p: Prodotto): (f: FormData)
    ensures f.categoriaId == p.categoriaId && f.codiceProdotto == p.codiceProdotto && f.nome == p.nome
    ensures f.prezzoListino == p.prezzoListino && f.disponibile == p.disponibile
    ensures f.descrizione == StrOr(p.descrizione, "") && f.note == StrOr(p.note, "")
    ensures f.unitaMisura == (if p.unitaMisura == "" then "pz" else p.unitaMisura)
  {
    FormData(p.categoriaId, p.codiceProdotto, p.nome, StrOr(p.descrizione, ""), p.prezzoListino,
      if p.unitaMisura == "" then "pz" else p.unitaMisura, p.disponibile, StrOr(p.note, ""))
  }

  /** A change event: a text field, the price (None when the text is not a
      number), or the check box.  The price and the check box always arrive
      through their own events, so a text event naming them changes nothing. */
  datatype Change = TextChange(campo: Campo, value: string) | PrezzoChange(parsed: Option<real>) | CheckboxChange(checked: bool)

  function ChangedField(e: Change): Campo {
    match e
    case TextChange(c, _) => c
    case PrezzoChange(_) => PrezzoListino
    case CheckboxChange(_) => Disponibile
  }

  /** The fields edited as plain text; the price and the check box have
      change events of their own. */
  predicate IsText(c: Campo) { c != PrezzoListino && c != Disponibile }

  function TextOf(f: FormData, c: Campo): string
    requires IsText(c)
  {
    match c
    case CategoriaId => f.categoriaId
    case CodiceProdotto => f.codiceProdotto
    case Nome => f.nome
    case Descrizione => f.descrizione
    case UnitaMisura => f.unitaMisura
    case NoteCampo => f.note
  }

  /** Writes one text field; any other field, the price and the check box
      keep their values. */
  function SetText(f: FormData, c: Campo, v: string): (r: FormData)
    ensures IsText(c) ==> TextOf(r, c) == v
    ensures forall d :: IsText(d) && d != c ==> TextOf(r, d) == TextOf(f, d)
    ensures r.prezzoListino == f.prezzoListino && r.disponibile == f.disponibile
    ensures !IsText(c) ==> r == f
  {
    match c
    case CategoriaId => f.(categoriaId := v)
    case CodiceProdotto => f.(codiceProdotto := v)
    case Nome => f.(nome := v)
    case Descrizione => f.(descrizione := v)
    case UnitaMisura => f.(unitaMisura := v)
    case NoteCampo => f.(note := v)
    case _ => f
  }

  datatype FormState = FormState(data: FormData, errors: map<Campo, string>)

  /** `handleChange`: a price that is not a number (or is 0) is stored as 0;
      the check box stores a boolean; a pending error on the field is blanked. */
  function HandleChange(s: FormState, e: Change): (t: FormState)
    ensures e.PrezzoChange? ==> t.data == s.data.(prezzoListino := OrZero(e.parsed))
    ensures e.CheckboxChange? ==> t.data == s.data.(disponibile := e.checked)
    ensures e.TextChange? && e.campo == Nome ==> t.data == s.data.(nome := e.value)
    ensures e.TextChange? && e.campo == CodiceProdotto ==> t.data == s.data.(codiceProdotto := e.value)
    ensures e.TextChange? && IsText(e.campo) ==> TextOf(t.data, e.campo) == e.value
    ensures e.TextChange? ==> forall d :: IsText(d) && d != e.campo ==> TextOf(t.data, d) == TextOf(s.data, d)
    ensures e.TextChange? ==> t.data.prezzoListino == s.data.prezzoListino && t.data.disponibile == s.data.disponibile
    ensures t.errors.Keys == s.errors.Keys
    ensures ChangedField(e) in t.errors ==> t.errors[ChangedField(e)] == ""
    ensures forall d :: d in s.errors && d != ChangedField(e) ==> t.errors[d] == s.errors[d]
  {
    var data := match e
      case TextChange(c, v) => SetText(s.data, c, v)
      case PrezzoChange(p) => s.data.(prezzoListino := OrZero(p))
      case CheckboxChange(b) => s.data.(disponibile := b);
    var c := ChangedField(e);
    FormState(data, if c in s.errors && s.errors[c] != "" then s.errors[c := ""] else s.errors)
  }

  /** `handleGenerateCodice`: with a blank name the generator is not called
      and the name gets an error; otherwise it is called with the name, and
      its code (None when it throws) replaces the product code and blanks
      that field's error. */
  function GenerateCodice(s: FormState, generated: Option<string>): (r: (FormState, Option<string>))
    ensures r.1.None? <==> IsBlank(s.data.nome)
    ensures r.1.None? ==> r.0 == s.(errors := s.errors[Nome := NomeFirst])
    ensures r.1.Some? ==> r.1.value == s.data.nome
    ensures r.1.Some? && generated.Some? ==>
      r.0.data == s.data.(codiceProdotto := generated.value) && r.0.errors == s.errors[CodiceProdotto := ""]
    ensures r.1.Some? && generated.None? ==> r.0 == s
  {
    TrimEmptyIff(s.data.nome);
    if Trim(s.data.nome) == "" then (s.(errors := s.errors[Nome := NomeFirst]), None)
    else
      match generated
      case Some(codice) =>
        (FormState(s.data.(codiceProdotto := codice), s.errors[CodiceProdotto := ""]), Some(s.data.nome))
      case None => (s, Some(s.data.nome))
  }

  const Checked: set<Campo> := {Nome, CodiceProdotto, CategoriaId, PrezzoListino}

  /** The fields in error and their messages. */
  function Validate(f: FormData): (errors: map<Campo, string>)
    ensures Nome in errors <==> IsBlank(f.nome)
    ensures CodiceProdotto in errors <==> IsBlank(f.codiceProdotto)
    ensures CategoriaId in errors <==> f.categoriaId == ""
    ensures PrezzoListino in errors <==> !(MinPrezzo <= f.prezzoListino <= MaxPrezzo)
    ensures PrezzoListino in errors ==> errors[PrezzoListino] == (if f.prezzoListino < MinPrezzo then PrezzoTooLow else PrezzoTooHigh)
    ensures errors.Keys <= Checked
    ensures forall c :: c in errors && c != PrezzoListino ==> errors[c] == RequiredField
  {
    TrimEmptyIff(f.nome);
    TrimEmptyIff(f.codiceProdotto);
    ErrorsOf(Trim(f.nome) == "", Trim(f.codiceProdotto) == "", f.categoriaId == "", f.prezzoListino)
  }

  /** The error map given which of the three required fields are missing and
      the price; of the two price messages the upper one is written last. */
  function ErrorsOf(nome: bool, codice: bool, categoria: bool, prezzo: real): (errors: map<Campo, string>)
    ensures Nome in errors <==> nome
    ensures CodiceProdotto in errors <==> codice
    ensures CategoriaId in errors <==> categoria
    ensures PrezzoListino in errors <==> !(MinPrezzo <= prezzo <= MaxPrezzo)
    ensures PrezzoListino in errors ==> errors[PrezzoListino] == (if prezzo < MinPrezzo then PrezzoTooLow else PrezzoTooHigh)
    ensures errors.Keys <= Checked
    ensures forall c :: c in errors && c != PrezzoListino ==> errors[c] == RequiredField
  {
    var e0: map<Campo, string> := map[];
    var e1 := if nome then e0[Nome := RequiredField] else e0;
    var e2 := if codice then e1[CodiceProdotto := RequiredField] else e1;
    var e3 := if categoria then e2[CategoriaId := RequiredField] else e2;
    var e4 := if prezzo < MinPrezzo then e3[PrezzoListino := PrezzoTooLow] else e3;
    if prezzo > MaxPrezzo then e4[PrezzoListino := PrezzoTooHigh] else e4
  }

  predicate IsValid(f: FormData) { |Validate(f)| == 0 }

  /** The form is valid exactly when the name, code and category are given
      and the price is within the list-price limits. */
  lemma ValidIff(f: FormData)
    ensures IsValid(f) <==> (!IsBlank(f.nome) && !IsBlank(f.codiceProdotto) && f.categoriaId != "" &&
      MinPrezzo <= f.prezzoListino <= MaxPrezzo)
  {
    var e := Validate(f);
    if |e| != 0 {
      var c :| c in e;
    }
  }

  /** A price typed as text that is not a number never fails the price rule. */
  lemma UnparsedPriceValid(s: FormState)
    ensures PrezzoListino !in Validate(HandleChange(s, PrezzoChange(None)).data)
  {
  }

  /** `handleSubmit`: the save callback runs only on a valid form. */
  function Submit(f: FormData, saveOk: bool): (r: Submission<FormData, map<Campo, string>>)
    ensures r.NotSubmitted? <==> !IsValid(f)
    ensures r.NotSubmitted? ==> r.errors == Validate(f)
    ensures r.SavedAndClosed? <==> IsValid(f) && saveOk
    ensures !r.NotSubmitted? ==> (if r.SavedAndClosed? then r.saved else r.sent) == f
  {
    if !IsValid(f) then NotSubmitted(Validate(f))
    else if saveOk then SavedAndClosed(f)
    else KeptOpen(f)
  }

  // ---------------------------------------------------------------- category grouping

  function IsParent(c: Categoria): bool { c.parentId.None? || c.parentId.value == "" }

  function ChildOf(p: string): Categoria -> bool {
    (c: Categoria) => c.parentId == Some(p)
  }

  /** The top-level categories, in list order. */
  function Parents(cs: seq<Categoria>): (r: seq<Categoria>)
    ensures forall k :: 0 <= k < |r| ==> IsParent(r[k])
  {
    Filter(cs, IsParent)
  }

  /** The categories under `parentId`, in list order. */
  function Children(cs: seq<Categoria>, parentId: string): (r: seq<Categoria>)
    ensures forall k :: 0 <= k < |r| ==> r[k].parentId == Some(parentId)
  {
    Filter(cs, ChildOf(parentId))
  }

  /** A category with a parent id is listed under that parent only, and not
      among the top-level ones; one without is top-level and under no parent. */
  lemma GroupedOnce(cs: seq<Categoria>, c: Categoria, q: string)
    requires c in cs
    ensures c.parentId.Some? && c.parentId.value != "" ==>
      c in Children(cs, c.parentId.value) && c !in Parents(cs) && (q != c.parentId.value ==> c !in Children(cs, q))
    ensures c.parentId.None? ==> c in Parents(cs) && c !in Children(cs, q)
  {
    FilterMembers(cs, IsParent, c);
    FilterMembers(cs, ChildOf(q), c);
    if c.parentId.Some? {
      FilterMembers(cs, ChildOf(c.parentId.value), c);
    }
  }
}
