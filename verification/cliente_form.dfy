/**
 The client form: loading a stored client for editing, editing one field,
 the validation rules (company name, e-mail shape, VAT number, tax code)
 and the guarded save.
 */
module ClienteForm {
  import opened Wrappers
  import opened Strings
  import opened Domain
  import opened Utils

  datatype Campo =
    | RagioneSociale | NomeReferente | Email | Telefono | Cellulare | PartitaIva
    | CodiceFiscale | Indirizzo | Citta | Cap | Provincia | Note

  /** The form's text fields, all plain strings ("" when empty). */
  datatype FormData = FormData(
    ragioneSociale: string, nomeReferente: string, email: string, telefono: string,
    cellulare: string, partitaIva: string, codiceFiscale: string, indirizzo: string,
    citta: string, cap: string, provincia: string, note: string)

  function Get(f: FormData, c: Campo): string {
    match c
    case RagioneSociale => f.ragioneSociale
    case NomeReferente => f.nomeReferente
    case Email => f.email
    case Telefono => f.telefono
    case Cellulare => f.cellulare
    case PartitaIva => f.partitaIva
    case CodiceFiscale => f.codiceFiscale
    case Indirizzo => f.indirizzo
    case Citta => f.citta
    case Cap => f.cap
    case Provincia => f.provincia
    case Note => f.note
  }

  /** `{ ...prev, [name]: value }` */
  function Set(f: FormData, c: Campo, v: string): (g: FormData)
    ensures Get(g, c) == v
    ensures forall d :: d != c ==> Get(g, d) == Get(f, d)
  {
    match c
    case RagioneSociale => f.(ragioneSociale := v)
    case NomeReferente => f.(nomeReferente := v)
    case Email => f.(email := v)
    case Telefono => f.(telefono := v)
    case Cellulare => f.(cellulare := v)
    case PartitaIva => f.(partitaIva := v)
    case CodiceFiscale => f.(codiceFiscale := v)
    case Indirizzo => f.(indirizzo := v)
    case Citta => f.(citta := v)
    case Cap => f.(cap := v)
    case Provincia => f.(provincia := v)
    case Note => f.(note := v)
  }

  /** The stored value behind each field; the company name is required. */
  function Stored(c: Cliente, k: Campo): Option<string> {
    match k
    case RagioneSociale => Some(c.ragioneSociale)
    case NomeReferente => c.nomeReferente
    case Email => c.email
    case Telefono => c.telefono
    case Cellulare => c.cellulare
    case PartitaIva => c.partitaIva
    case CodiceFiscale => c.codiceFiscale
    case Indirizzo => c.indirizzo
    case Citta => c.citta
    case Cap => c.cap
    case Provincia => c.provincia
    case Note => c.note
  }

  /** Loading a stored client: every absent optional field becomes "". */
  function FromCliente(c: Cliente): (f: FormData)
    ensures f.ragioneSociale == c.ragioneSociale
    ensures forall k :: k != RagioneSociale ==> Get(f, k) == StrOr(Stored(c, k), "")
  {
    FormData(c.ragioneSociale, StrOr(c.nomeReferente, ""), StrOr(c.email, ""), StrOr(c.telefono, ""),
      StrOr(c.cellulare, ""), StrOr(c.partitaIva, ""), StrOr(c.codiceFiscale, ""), StrOr(c.indirizzo, ""),
      StrOr(c.citta, ""), StrOr(c.cap, ""), StrOr(c.provincia, ""), StrOr(c.note, ""))
  }

  /** A loaded field is empty exactly when nothing, or "", was stored, and a
      stored value is loaded unchanged. */
  lemma FromClienteEmptyIff(c: Cliente)
    ensures forall k :: k != RagioneSociale ==>
      (Get(FromCliente(c), k) == "" <==> (Stored(c, k).None? || Stored(c, k).value == ""))
    ensures forall k :: Stored(c, k).Some? ==> Get(FromCliente(c), k) == Stored(c, k).value
  {
  }


  // ---------------------------------------------------------------- e-mail

  predicate EmailChar(c: char) { !IsJsSpace(c) && c != '@' }

  predicate AllEmailChars(s: string) { forall i :: 0 <= i < |s| ==> EmailChar(s[i]) }

  /** `/^[^\s@]+@[^\s@]+\.[^\s@]+$/`, as a language: one '@' after a
      non-empty start, a '.' with text on both sides after it, no whitespace
      and no other '@'. */
  predicate EmailShape(s: string) {
    exists at, dot :: 0 < at && at + 1 < dot < |s| - 1 && s[at] == '@' && s[dot] == '.' &&
      forall k :: 0 <= k < |s| && k != at ==> EmailChar(s[k])
  }

  /** The index of the first `c`, or `|s|` when there is none. */
  function FirstIndex(s: string, c: char): (i: nat)
    ensures i <= |s|
    ensures i < |s| ==> s[i] == c
    ensures forall k :: 0 <= k < i ==> s[k] != c
    decreases |s|
  {
    if |s| == 0 then 0 else if s[0] == c then 0 else 1 + FirstIndex(s[1..], c)
  }

  predicate HasInnerDot(d: string) {
    exists j :: 0 < j < |d| - 1 && d[j] == '.'
  }

  /** The e-mail check as the form runs it: split at the first '@'. */
  predicate ValidEmail(s: string) {
    var at := FirstIndex(s, '@');
    0 < at < |s| && AllEmailChars(s[..at]) && AllEmailChars(s[at + 1..]) && HasInnerDot(s[at + 1..])
  }

  /** The split check accepts exactly the language of the pattern. */
  lemma EmailIff(s: string)
    ensures ValidEmail(s) <==> EmailShape(s)
  {
    var at := FirstIndex(s, '@');
    if ValidEmail(s) {
      var d := s[at + 1..];
      var j :| 0 < j < |d| - 1 && d[j] == '.';
      assert s[at + 1 + j] == '.';
      forall k | 0 <= k < |s| && k != at ensures EmailChar(s[k]) {
        if k < at { assert s[k] == s[..at][k]; } else { assert s[k] == d[k - at - 1]; }
      }
    }
    if EmailShape(s) {
      var a, dot :| 0 < a && a + 1 < dot < |s| - 1 && s[a] == '@' && s[dot] == '.' &&
        forall k :: 0 <= k < |s| && k != a ==> EmailChar(s[k]);
      assert at <= a;
      assert at == a || EmailChar(s[at]);
      var d := s[at + 1..];
      assert d[dot - at - 1] == '.';
    }
  }

  // ---------------------------------------------------------------- validation

  const Checked: set<Campo> := {RagioneSociale, Email, PartitaIva, CodiceFiscale}

  function Message(c: Campo): string {
    match c
    case RagioneSociale => RequiredField
    case Email => InvalidEmail
    case PartitaIva => InvalidPartitaIva
    case _ => InvalidCodiceFiscale
  }

  /** The fields in error and their messages. */
  function Validate(f: FormData): (errors: map<Campo, string>)
    ensures RagioneSociale in errors <==> IsBlank(f.ragioneSociale)
    ensures Email in errors <==> BadOptional(f.email, ValidEmail(f.email))
    ensures PartitaIva in errors <==> BadOptional(f.partitaIva, ValidatePartitaIva(f.partitaIva))
    ensures CodiceFiscale in errors <==> BadOptional(f.codiceFiscale, ValidateCodiceFiscale(f.codiceFiscale))
    ensures errors.Keys <= Checked
    ensures forall c :: c in errors ==> errors[c] == Message(c)
  {
    TrimEmptyIff(f.ragioneSociale);
    ErrorsOf(Trim(f.ragioneSociale) == "", BadOptional(f.email, ValidEmail(f.email)),
      BadOptional(f.partitaIva, ValidatePartitaIva(f.partitaIva)),
      BadOptional(f.codiceFiscale, ValidateCodiceFiscale(f.codiceFiscale)))
  }

  /** An optional field is in error only when it is filled in and its rule fails. */
  predicate BadOptional(value: string, ok: bool) { value != "" && !ok }

  /** The error map given which of the four rules fail. */
  function ErrorsOf(nome: bool, email: bool, piva: bool, cf: bool): (errors: map<Campo, string>)
    ensures RagioneSociale in errors <==> nome
    ensures Email in errors <==> email
    ensures PartitaIva in errors <==> piva
    ensures CodiceFiscale in errors <==> cf
    ensures errors.Keys <= Checked
    ensures forall c :: c in errors ==> errors[c] == Message(c)
  {
    var e0: map<Campo, string> := map[];
    var e1 := if nome then e0[RagioneSociale := RequiredField] else e0;
    var e2 := if email then e1[Email := InvalidEmail] else e1;
    var e3 := if piva then e2[PartitaIva := InvalidPartitaIva] else e2;
    if cf then e3[CodiceFiscale := InvalidCodiceFiscale] else e3
  }

  predicate IsValid(f: FormData) { |Validate(f)| == 0 }

  /** The form is valid exactly when the four rules hold. */
  lemma ValidIff(f: FormData)
    ensures IsValid(f) <==> (!IsBlank(f.ragioneSociale) && (f.email == "" || EmailShape(f.email)) &&
      (f.partitaIva == "" || ValidatePartitaIva(f.partitaIva)) &&
      (f.codiceFiscale == "" || ValidateCodiceFiscale(f.codiceFiscale)))
  {
    EmailIff(f.email);
    var e := Validate(f);
    if |e| != 0 {
      var c :| c in e;
    }
  }

  /** Fields other than the four checked ones never block saving. */
  lemma OtherFieldsIrrelevant(f: FormData, c: Campo, v: string)
    requires c !in Checked
    ensures Validate(Set(f, c, v)) == Validate(f)
  {
    var g := Set(f, c, v);
    assert Get(g, RagioneSociale) == Get(f, RagioneSociale) && Get(g, Email) == Get(f, Email);
    assert Get(g, PartitaIva) == Get(f, PartitaIva) && Get(g, CodiceFiscale) == Get(f, CodiceFiscale);
    SameCheckedFields(f, g);
  }

  lemma SameCheckedFields(f: FormData, g: FormData)
    requires f.ragioneSociale == g.ragioneSociale && f.email == g.email
    requires f.partitaIva == g.partitaIva && f.codiceFiscale == g.codiceFiscale
    ensures Validate(f) == Validate(g)
  {
    var a := Validate(f);
    var b := Validate(g);
    assert a.Keys == b.Keys;
    assert forall c :: c in a ==> a[c] == b[c];
  }

  // ---------------------------------------------------------------- editing and saving

  datatype FormState = FormState(data: FormData, errors: map<Campo, string>)

  /** `handleChange`: set the field; a pending error on it is blanked, others stay. */
  function HandleChange(s: FormState, c: Campo, v: string): (t: FormState)
    ensures t.data == Set(s.data, c, v)
    ensures t.errors.Keys == s.errors.Keys
    ensures c in t.errors ==> t.errors[c] == ""
    ensures forall d :: d in s.errors && d != c ==> t.errors[d] == s.errors[d]
  {
    var errors := if c in s.errors && s.errors[c] != "" then s.errors[c := ""] else s.errors;
    FormState(Set(s.data, c, v), errors)
  }

  /** `handleSubmit`: the save callback (its outcome a parameter) runs only on a
      valid form and receives the form as it is; a failed save keeps the form open. */
  function Submit(f: FormData, saveOk: bool): (r: Submission<FormData, map<Campo, string>>)
    ensures r.NotSubmitted? <==> !IsValid(f)
    ensures r.NotSubmitted? ==> r.errors == Validate(f)
    ensures r.SavedAndClosed? <==> IsValid(f) && saveOk
    ensures r.SavedAndClosed? ==> r.saved == f
    ensures r.KeptOpen? ==> r.sent == f
  {
    if !IsValid(f) then NotSubmitted(Validate(f))
    else if saveOk then SavedAndClosed(f)
    else KeptOpen(f)
  }

  /** A form with a blank company name and the checked optional fields empty
      (the new, untouched form among them) fails on the company name only. */
  lemma BlankNameOnlyError(f: FormData)
    requires IsBlank(f.ragioneSociale) && f.email == "" && f.partitaIva == "" && f.codiceFiscale == ""
    ensures Validate(f) == map[RagioneSociale := RequiredField]
  {
    var e := Validate(f);
    assert Email !in e && PartitaIva !in e && CodiceFiscale !in e;
    assert e.Keys == {RagioneSociale};
  }
}
