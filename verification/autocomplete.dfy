/**
 The two search-as-you-type pickers of the order form.  The product picker
 filters by name or code, moves a highlight with the arrow keys and selects
 with Enter or a click; the client picker filters by company name and reports
 selection and clearing to the form.  Both show at most 50 entries.
 */
module Autocomplete {
  import opened Wrappers
  import opened Strings

  /** At most this many entries are listed. */
  const MaxShown: nat := 50

  /** The visible part of a result list and, past the limit, the total shown
      in "Mostrati primi 50 di N risultati". */
  function Visible<T>(xs: seq<T>): (v: (seq<T>, Option<nat>))
    ensures |v.0| == (if |xs| < MaxShown then |xs| else MaxShown) && v.0 <= xs
    ensures v.1.Some? <==> |xs| > MaxShown
    ensures v.1.Some? ==> v.1.value == |xs|
  {
    (Take(xs, MaxShown), if |xs| > MaxShown then Some(|xs|) else None)
  }

  /** A text containing another is at least as long. */
  lemma ContainsLength(s: string, t: string)
    requires Contains(s, t)
    ensures |t| <= |s|
  {
    ContainsIff(s, t);
  }

  /** Where the trimmed text sits inside the text. */
  lemma TrimSlice(s: string) returns (i: nat)
    ensures i + |Trim(s)| <= |s| && s[i..i + |Trim(s)|] == Trim(s)
  {
    var a := TrimStart(s);
    var t := TrimEnd(a);
    i := |s| - |a|;
    assert a == s[i..] && t == a[..|t|];
    forall k | 0 <= k < |t|
      ensures s[i..i + |t|][k] == t[k]
    {
      assert t[k] == a[k] == s[i + k];
    }
    assert s[i..i + |t|] == t;
  }

  lemma LowerSlice(s: string, i: nat, j: nat)
    requires i <= j <= |s|
    ensures ToLower(s)[i..j] == ToLower(s[i..j])
  {
  }

  /** A text contains its trimmed self, also once both are lower-cased. */
  lemma TrimOccurs(s: string)
    ensures Contains(ToLower(s), ToLower(Trim(s)))
  {
    var i := TrimSlice(s);
    LowerOccurs(s, Trim(s), i);
  }

  /** A slice of a text still occurs in it once both are lower-cased. */
  lemma LowerOccurs(s: string, t: string, i: nat)
    requires i + |t| <= |s| && s[i..i + |t|] == t
    ensures Contains(ToLower(s), ToLower(t))
  {
    LowerSlice(s, i, i + |t|);
    OccursAtContains(ToLower(s), ToLower(t), i);
  }

  lemma OccursAtContains(s: string, t: string, i: nat)
    requires i + |t| <= |s| && s[i..i + |t|] == t
    ensures Contains(s, t)
  {
    assert OccursAt(s, t, i);
    ContainsIff(s, t);
  }

  // ---------------------------------------------------------------- products

  datatype ProdottoVoce = ProdottoVoce(id: string, codiceProdotto: string, nome: string, prezzoListino: real)

  predicate MatchesProdotto(p: ProdottoVoce, search: string) {
    Contains(ToLower(p.nome), ToLower(search)) || Contains(ToLower(p.codiceProdotto), ToLower(search))
  }

  function ProdottoMatcher(search: string): ProdottoVoce -> bool {
    (p: ProdottoVoce) => MatchesProdotto(p, search)
  }

  /** `filteredProdotti`: every product for a blank search; otherwise those
      whose name or code contains the search as typed, ignoring case. */
  function FilteredProdotti(ps: seq<ProdottoVoce>, search: string): (r: seq<ProdottoVoce>)
    ensures |r| <= |ps|
    ensures Trim(search) == "" ==> r == ps
    ensures Trim(search) != "" ==> forall k :: 0 <= k < |r| ==> MatchesProdotto(r[k], search)
  {
    if Trim(search) != "" then Filter(ps, ProdottoMatcher(search)) else ps
  }

  /** A product is listed exactly when the search is blank or it matches. */
  lemma FilteredProdottiMembers(ps: seq<ProdottoVoce>, search: string, p: ProdottoVoce)
    ensures p in FilteredProdotti(ps, search) <==> (p in ps && (Trim(search) == "" || MatchesProdotto(p, search)))
  {
    FilterMembers(ps, ProdottoMatcher(search), p);
  }

  datatype PState = PState(search: string, isOpen: bool, highlighted: int)

  datatype Key = ArrowDown | ArrowUp | Enter | Escape | OtherKey

  datatype PEvent =
    | Typed(value: string)
    | Focused
    | KeyDown(key: Key)
    | ClickEntry(index: nat)   // a click on the index-th listed entry
    | ClearClick
    | ClickOutside

  /** `handleSelect`: the search shows "nome (codice)", the list closes and the highlight returns to the top. */
  function Selected(p: ProdottoVoce): (s: PState)
    ensures !s.isOpen && s.highlighted == 0
    ensures s.search == p.nome + " (" + p.codiceProdotto + ")"
  {
    PState(p.nome + " (" + p.codiceProdotto + ")", false, 0)
  }

  /** One event on the product picker: the new state and the product handed
      to the form, if any. */
  function PStep(ps: seq<ProdottoVoce>, s: PState, e: PEvent): (r: (PState, Option<ProdottoVoce>))
    ensures e.KeyDown? && !s.isOpen ==> r == (s, None)
    ensures e.KeyDown? && e.key == ArrowDown && s.isOpen ==>
      r.0.highlighted == Min(s.highlighted + 1, |FilteredProdotti(ps, s.search)| - 1)
    ensures e.KeyDown? && e.key == ArrowUp && s.isOpen ==> r.0.highlighted == Max(s.highlighted - 1, 0)
    ensures e.KeyDown? && e.key == Enter && s.isOpen ==>
      (r.1.Some? <==> 0 <= s.highlighted < |FilteredProdotti(ps, s.search)|)
    ensures r.1.Some? ==> r.0 == Selected(r.1.value) && r.1.value in FilteredProdotti(ps, s.search)
    ensures e.Typed? ==> r == (PState(e.value, true, 0), None)
    ensures e.ClearClick? ==> r == (PState("", false, s.highlighted), None)
  {
    var list := FilteredProdotti(ps, s.search);
    match e
    case Typed(v) => (PState(v, true, 0), None)
    case Focused => (s.(isOpen := true), None)
    case ClearClick => (PState("", false, s.highlighted), None)
    case ClickOutside => (s.(isOpen := false), None)
    case ClickEntry(k) =>
      if s.isOpen && k < |Visible(list).0| then (Selected(list[k]), Some(list[k])) else (s, None)
    case KeyDown(key) =>
      if !s.isOpen then (s, None)
      else match key
        case ArrowDown => (s.(highlighted := Min(s.highlighted + 1, |list| - 1)), None)
        case ArrowUp => (s.(highlighted := Max(s.highlighted - 1, 0)), None)
        case Enter =>
          if 0 <= s.highlighted < |list| then (Selected(list[s.highlighted]), Some(list[s.highlighted])) else (s, None)
        case Escape => (s.(isOpen := false), None)
        case OtherKey => (s, None)
  }

  function Min(a: int, b: int): int { if a <= b then a else b }
  function Max(a: int, b: int): int { if a >= b then a else b }

  /** Where the highlight can be: on a listed entry, or at 0 or -1 (an
      arrow-down on an empty list yields -1, which no entry answers to). */
  predicate HighlightOk(ps: seq<ProdottoVoce>, s: PState) {
    -1 <= s.highlighted && (s.highlighted < |FilteredProdotti(ps, s.search)| || s.highlighted <= 0)
  }

  /** Every event keeps the highlight where it can be. */
  lemma StepKeepsHighlight(ps: seq<ProdottoVoce>, s: PState, e: PEvent)
    requires HighlightOk(ps, s)
    ensures HighlightOk(ps, PStep(ps, s, e).0)
  {
    var r := PStep(ps, s, e).0;
    match e
    case ClearClick =>
      assert FilteredProdotti(ps, "") == ps;
      assert r.highlighted == s.highlighted;
    case KeyDown(key) =>
      if s.isOpen && key == ArrowDown {
        assert r.search == s.search;
      }
    case _ =>
  }

  function PRun(ps: seq<ProdottoVoce>, s: PState, es: seq<PEvent>): PState
    decreases |es|
  {
    if |es| == 0 then s else PRun(ps, PStep(ps, s, es[0]).0, es[1..])
  }

  /** Any sequence of events keeps the highlight on a listed entry, at 0 or
      at -1 (the initial state, with the highlight at 0, is such a state). */
  lemma {:induction false} RunKeepsHighlight(ps: seq<ProdottoVoce>, s: PState, es: seq<PEvent>)
    requires HighlightOk(ps, s)
    ensures HighlightOk(ps, PRun(ps, s, es))
    decreases |es|
  {
    if |es| > 0 {
      StepKeepsHighlight(ps, s, es[0]);
      RunKeepsHighlight(ps, PStep(ps, s, es[0]).0, es[1..]);
    }
  }

  /** On a non-empty list the arrow keys keep a highlighted entry highlighted. */
  lemma ArrowsStayOnList(ps: seq<ProdottoVoce>, s: PState, k: Key)
    requires s.isOpen && 0 <= s.highlighted < |FilteredProdotti(ps, s.search)|
    requires k == ArrowDown || k == ArrowUp
    ensures 0 <= PStep(ps, s, KeyDown(k)).0.highlighted < |FilteredProdotti(ps, s.search)|
  {
  }

  /** After a selection the search text is not blank and is longer than the
      chosen product's name and code, so re-opening the list does not show
      that product. */
  lemma SelectionHidesItself(ps: seq<ProdottoVoce>, p: ProdottoVoce)
    ensures !MatchesProdotto(p, Selected(p).search)
    ensures p !in FilteredProdotti(ps, Selected(p).search)
  {
    var s := Selected(p).search;
    TrimEmptyIff(s);
    assert s[|p.nome| + 1] == '(';
    if Contains(ToLower(p.nome), ToLower(s)) {
      ContainsLength(ToLower(p.nome), ToLower(s));
    }
    if Contains(ToLower(p.codiceProdotto), ToLower(s)) {
      ContainsLength(ToLower(p.codiceProdotto), ToLower(s));
    }
    FilteredProdottiMembers(ps, s, p);
  }

  // ---------------------------------------------------------------- clients

  datatype ClienteVoce = ClienteVoce(id: string, ragioneSociale: string)

  predicate MatchesCliente(c: ClienteVoce, q: string) {
    Contains(ToLower(c.ragioneSociale), q)
  }

  function ClienteMatcher(q: string): ClienteVoce -> bool {
    (c: ClienteVoce) => MatchesCliente(c, q)
  }

  /** The query as the filter uses it: trimmed, then lower-cased. */
  function Needle(query: string): string { ToLower(Trim(query)) }

  /** `filtered`: every client for a blank query; otherwise those whose
      lower-cased company name contains the trimmed, lower-cased query. */
  function FilteredClienti(cs: seq<ClienteVoce>, query: string): (r: seq<ClienteVoce>)
    ensures |r| <= |cs|
    ensures Needle(query) == "" ==> r == cs
    ensures forall k :: 0 <= k < |r| ==> MatchesCliente(r[k], Needle(query))
  {
    var q := Needle(query);
    if q == "" then
      assert forall k :: 0 <= k < |cs| ==> MatchesCliente(cs[k], q) by {
        forall k | 0 <= k < |cs| ensures MatchesCliente(cs[k], q) {
          assert "" <= ToLower(cs[k].ragioneSociale);
        }
      }
      cs
    else Filter(cs, ClienteMatcher(q))
  }

  lemma FilteredClientiMembers(cs: seq<ClienteVoce>, query: string, c: ClienteVoce)
    ensures c in FilteredClienti(cs, query) <==> c in cs && MatchesCliente(c, Needle(query))
  {
    if Needle(query) != "" {
      FilterMembers(cs, ClienteMatcher(Needle(query)), c);
    } else {
      assert "" <= ToLower(c.ragioneSociale);
    }
  }

  datatype CState = CState(query: string, isOpen: bool)

  datatype CEvent =
    | Changed(value: string)
    | CFocused
    | ClearButton
    | Choose(c: ClienteVoce)
    | COutside

  /** What the picker tells the form. */
  datatype CEffect = OnSelect(c: ClienteVoce) | OnClear

  /** One event on the client picker, given the id the form has selected ("" for none). */
  function CStep(s: CState, selectedId: string, e: CEvent): (r: (CState, Option<CEffect>))
    ensures e.Changed? ==> r.0 == CState(e.value, true) && (r.1 == Some(OnClear) <==> selectedId != "")
    ensures e.Changed? && selectedId == "" ==> r.1.None?
    ensures e.ClearButton? ==> r.0 == CState("", false) && (r.1 == Some(OnClear) <==> selectedId != "")
    ensures e.ClearButton? && selectedId == "" ==> r.1.None?
    ensures e.Choose? ==> r == (CState(e.c.ragioneSociale, false), Some(OnSelect(e.c)))
    ensures (e.CFocused? || e.COutside?) ==> r.1.None? && r.0.query == s.query
  {
    match e
    case Changed(v) => (CState(v, true), if selectedId != "" then Some(OnClear) else None)
    case CFocused => (s.(isOpen := true), None)
    case ClearButton => (CState("", false), if selectedId != "" then Some(OnClear) else None)
    case Choose(c) => (CState(c.ragioneSociale, false), Some(OnSelect(c)))
    case COutside => (s.(isOpen := false), None)
  }

  /** The clear button is on screen while there is a query or a selection. */
  predicate ClearVisible(s: CState, selectedId: string) { s.query != "" || selectedId != "" }

  /** "Nessun cliente trovato": open, nothing listed, and a non-blank query. */
  predicate NoneFound(cs: seq<ClienteVoce>, s: CState) {
    s.isOpen && |FilteredClienti(cs, s.query)| == 0 && Trim(s.query) != ""
  }

  /** No client before position `k` has the id. */
  predicate NoIdBefore(cs: seq<ClienteVoce>, k: int, id: string)
    requires 0 <= k <= |cs|
  {
    forall j :: 0 <= j < k ==> cs[j].id != id
  }

  /** The first client with the given id. */
  function Find(cs: seq<ClienteVoce>, id: string): (r: Option<ClienteVoce>)
    ensures r.Some? ==> r.value in cs && r.value.id == id
    ensures r.None? ==> forall k :: 0 <= k < |cs| ==> cs[k].id != id
    ensures r.Some? ==> exists k :: 0 <= k < |cs| && cs[k] == r.value && NoIdBefore(cs, k, id)
    decreases |cs|
  {
    if |cs| == 0 then None else if cs[0].id == id then Some(cs[0]) else Find(cs[1..], id)
  }

  /** When the form's selection changes to a client, the query shows its name
      ("" when the id is not in the list); clearing the selection keeps the query. */
  function SyncSelection(s: CState, cs: seq<ClienteVoce>, selectedId: string): (t: CState)
    ensures t.isOpen == s.isOpen
    ensures selectedId == "" ==> t == s
    ensures selectedId != "" && Find(cs, selectedId).Some? ==> t.query == Find(cs, selectedId).value.ragioneSociale
    ensures selectedId != "" && Find(cs, selectedId).None? ==> t.query == ""
  {
    if selectedId == "" then s
    else s.(query := match Find(cs, selectedId) case Some(c) => c.ragioneSociale case None => "")
  }

  /** Choosing a listed client leaves it in the list its own name filters. */
  lemma ChosenClientStaysListed(cs: seq<ClienteVoce>, s: CState, sel: string, c: ClienteVoce)
    requires c in cs
    ensures c in FilteredClienti(cs, CStep(s, sel, Choose(c)).0.query)
  {
    TrimOccurs(c.ragioneSociale);
    FilteredClientiMembers(cs, c.ragioneSociale, c);
  }
}
