/**
 The local lists kept by the products and clients hooks: loading, and the
 updates applied after a successful create, update or (soft) delete, each
 re-sorting by the list's key (product code, company name); a failed call
 leaves the list as it was and records the error.  Also the product code
 generator's fallbacks.  Backend calls are parameters: their result or the
 value they threw.
 */
module SortedCache {
  import opened Wrappers
  import opened Strings
  import opened Domain

  // ---------------------------------------------------------------- key order

  /** Lexicographic order on code points, standing in for `localeCompare(...) <= 0`. */
  predicate StrLe(a: string, b: string)
    decreases |a|
  {
    |a| == 0 || (|b| > 0 && (a[0] < b[0] || (a[0] == b[0] && StrLe(a[1..], b[1..]))))
  }

  lemma {:induction false} StrLeTotal(a: string, b: string)
    ensures StrLe(a, b) || StrLe(b, a)
    decreases |a|
  {
    if |a| > 0 && |b| > 0 && a[0] == b[0] {
      StrLeTotal(a[1..], b[1..]);
    }
  }

  lemma {:induction false} StrLeTrans(a: string, b: string, c: string)
    requires StrLe(a, b) && StrLe(b, c)
    ensures StrLe(a, c)
    decreases |a|
  {
    if |a| > 0 && a[0] == b[0] && b[0] == c[0] {
      StrLeTrans(a[1..], b[1..], c[1..]);
    }
  }

  /** Two keys each at most the other are the same key. */
  lemma {:induction false} StrLeAntisymmetric(a: string, b: string)
    requires StrLe(a, b) && StrLe(b, a)
    ensures a == b
    decreases |a|
  {
    if |a| > 0 {
      StrLeAntisymmetric(a[1..], b[1..]);
      assert a == [a[0]] + a[1..] && b == [b[0]] + b[1..];
    }
  }

  predicate SortedBy<T>(xs: seq<T>, key: T -> string) {
    forall i, j :: 0 <= i < j < |xs| ==> StrLe(key(xs[i]), key(xs[j]))
  }

  // ---------------------------------------------------------------- sorting

  /** `x` placed after every element whose key is at most its own. */
  function Insert<T(==)>(s: seq<T>, x: T, key: T -> string): (r: seq<T>)
    ensures |r| == |s| + 1
    ensures multiset(r) == multiset(s) + multiset{x}
    decreases |s|
  {
    if |s| == 0 then [x]
    else if !StrLe(key(s[0]), key(x)) then [x] + s
    else
      assert s == [s[0]] + s[1..];
      [s[0]] + Insert(s[1..], x, key)
  }

  lemma {:induction false} InsertSorted<T>(s: seq<T>, x: T, key: T -> string)
    requires SortedBy(s, key)
    ensures SortedBy(Insert(s, x, key), key)
    decreases |s|
  {
    if |s| > 0 {
      var r := Insert(s, x, key);
      if !StrLe(key(s[0]), key(x)) {
        StrLeTotal(key(s[0]), key(x));
        forall j | 0 <= j < |s| ensures StrLe(key(x), key(s[j])) {
          if j > 0 { StrLeTrans(key(x), key(s[0]), key(s[j])); }
        }
        assert r == [x] + s;
      } else {
        var t := Insert(s[1..], x, key);
        InsertSorted(s[1..], x, key);
        assert r == [s[0]] + t;
        forall j | 0 <= j < |t| ensures StrLe(key(s[0]), key(t[j])) {
          assert t[j] in multiset(t);
          assert t[j] == x || t[j] in multiset(s[1..]);
          if t[j] != x {
            assert t[j] in s[1..];
            var k :| 0 <= k < |s[1..]| && s[1..][k] == t[j];
            assert s[k + 1] == t[j];
          }
        }
      }
    }
  }

  /** The list sorted by `key`: an insertion sort, stable like `Array.prototype.sort`. */
  function SortBy<T(==)>(xs: seq<T>, key: T -> string): (r: seq<T>)
    ensures |r| == |xs|
    ensures multiset(r) == multiset(xs)
    decreases |xs|
  {
    if |xs| == 0 then []
    else
      assert xs == xs[..|xs| - 1] + [xs[|xs| - 1]];
      Insert(SortBy(xs[..|xs| - 1], key), xs[|xs| - 1], key)
  }

  /** Sorting orders the list by its key. */
  lemma {:induction false} SortBySorted<T>(xs: seq<T>, key: T -> string)
    ensures SortedBy(SortBy(xs, key), key)
    decreases |xs|
  {
    if |xs| > 0 {
      SortBySorted(xs[..|xs| - 1], key);
      InsertSorted(SortBy(xs[..|xs| - 1], key), xs[|xs| - 1], key);
    }
  }

  // ---------------------------------------------------------------- the local list

  /** Which hook: the list of products (sorted by code) or of clients (by company name). */
  datatype Kind = Prodotti | Clienti

  datatype Op = Fetch | Create | Update | Delete

  /** The text recorded when a call throws something that is not an `Error`. */
  function Fallback(k: Kind, op: Op): string {
    match (k, op)
    case (Prodotti, Fetch) => "Errore nel caricamento prodotti"
    case (Prodotti, Create) => "Errore nella creazione prodotto"
    case (Prodotti, Update) => "Errore nell'aggiornamento prodotto"
    case (Prodotti, Delete) => "Errore nell'eliminazione prodotto"
    case (Clienti, Fetch) => "Errore nel caricamento clienti"
    case (Clienti, Create) => "Errore nella creazione cliente"
    case (Clienti, Update) => "Errore nell'aggiornamento cliente"
    case (Clienti, Delete) => "Errore nell'eliminazione cliente"
  }

  function ProdottoKey(p: Prodotto): string { p.codiceProdotto }
  function ProdottoId(p: Prodotto): string { p.id }
  function ClienteKey(c: Cliente): string { c.ragioneSociale }
  function ClienteId(c: Cliente): string { c.id }

  /** The hook's list and its `error` text. */
  datatype Cache<T> = Cache(items: seq<T>, error: Option<string>)

  /** What the hook returns: `{ success: true, data? }` or `{ success: false, error }`. */
  datatype Reply<T> = Done(data: Option<T>) | Failed(message: string)

  /** A failed call: the list stays, the message is recorded and returned. */
  function Fail<T>(c: Cache<T>, t: Thrown, k: Kind, op: Op): (r: (Cache<T>, Reply<T>))
    ensures r.0.items == c.items
    ensures r.0.error == Some(MessageOr(t, Fallback(k, op))) && r.1 == Failed(r.0.error.value)
  {
    var m := MessageOr(t, Fallback(k, op));
    (Cache(c.items, Some(m)), Failed(m))
  }

  /** Loading: the error is cleared first; a successful query replaces the
      list (already ordered by the query), a failed one keeps it. */
  function FetchList<T>(c: Cache<T>, k: Kind, fetched: Result<seq<T>, Thrown>): (r: Cache<T>)
    ensures fetched.Success? ==> r == Cache(fetched.value, None)
    ensures fetched.Failure? ==> r.items == c.items && r.error == Some(MessageOr(fetched.error, Fallback(k, Fetch)))
  {
    match fetched
    case Success(rows) => Cache(rows, None)
    case Failure(t) => Cache(c.items, Some(MessageOr(t, Fallback(k, Fetch))))
  }

  /** After an insert: the stored row is appended and the list re-sorted.  A
      success does not clear an earlier error. */
  function CreateLocal<T(==)>(c: Cache<T>, k: Kind, key: T -> string, inserted: Result<T, Thrown>): (r: (Cache<T>, Reply<T>))
    ensures inserted.Success? ==> r.1 == Done(Some(inserted.value)) && r.0.error == c.error
    ensures inserted.Success? ==> |r.0.items| == |c.items| + 1
    ensures inserted.Success? ==> multiset(r.0.items) == multiset(c.items) + multiset{inserted.value}
    ensures inserted.Failure? ==> r == Fail(c, inserted.error, k, Create)
  {
    match inserted
    case Success(d) => (Cache(SortBy(c.items + [d], key), c.error), Done(Some(d)))
    case Failure(t) => Fail(c, t, k, Create)
  }

  /** `prev.map(x => x.id === id ? data : x)` */
  function ReplaceById<T>(xs: seq<T>, ident: T -> string, id: string, d: T): (r: seq<T>)
    ensures |r| == |xs|
    ensures forall k :: 0 <= k < |xs| ==> r[k] == (if ident(xs[k]) == id then d else xs[k])
  {
    seq(|xs|, k requires 0 <= k < |xs| => if ident(xs[k]) == id then d else xs[k])
  }

  /** After an update: every row with that id becomes the stored row, and the
      list is re-sorted. */
  function UpdateLocal<T(==)>(c: Cache<T>, k: Kind, key: T -> string, ident: T -> string,
                              id: string, updated: Result<T, Thrown>): (r: (Cache<T>, Reply<T>))
    ensures updated.Success? ==> r.1 == Done(Some(updated.value)) && r.0.error == c.error
    ensures updated.Success? ==> |r.0.items| == |c.items|
    ensures updated.Success? ==> multiset(r.0.items) == multiset(ReplaceById(c.items, ident, id, updated.value))
    ensures updated.Failure? ==> r == Fail(c, updated.error, k, Update)
  {
    match updated
    case Success(d) => (Cache(SortBy(ReplaceById(c.items, ident, id, d), key), c.error), Done(Some(d)))
    case Failure(t) => Fail(c, t, k, Update)
  }

  /** The backend write of a delete: the row is kept and only flagged. */
  datatype SoftDelete = SetDisponibile(id: string, disponibile: bool) | SetAttivo(id: string, attivo: bool)

  function DeleteRequest(k: Kind, id: string): (w: SoftDelete)
    ensures k == Prodotti ==> w == SetDisponibile(id, false)
    ensures k == Clienti ==> w == SetAttivo(id, false)
    ensures w.id == id
  {
    match k
    case Prodotti => SetDisponibile(id, false)
    case Clienti => SetAttivo(id, false)
  }

  /** The rows a delete of `id` keeps. */
  function OtherId<T>(ident: T -> string, id: string): T -> bool {
    (x: T) => ident(x) != id
  }

  /** After the flagging write: the rows with that id leave the list. */
  function DeleteLocal<T>(c: Cache<T>, k: Kind, ident: T -> string, id: string, outcome: Option<Thrown>): (r: (Cache<T>, Reply<T>))
    ensures outcome.None? ==> r.1 == Done(None) && r.0.error == c.error
    ensures outcome.None? ==> forall j :: 0 <= j < |r.0.items| ==> ident(r.0.items[j]) != id && r.0.items[j] in c.items
    ensures outcome.None? ==> forall j :: 0 <= j < |c.items| && ident(c.items[j]) != id ==> c.items[j] in r.0.items
    ensures outcome.Some? ==> r == Fail(c, outcome.value, k, Delete)
  {
    match outcome
    case None =>
      var p := OtherId(ident, id);
      var kept := Filter(c.items, p);
      forall j | 0 <= j < |kept| ensures kept[j] in c.items {
        FilterMembers(c.items, p, kept[j]);
      }
      forall j | 0 <= j < |c.items| && ident(c.items[j]) != id ensures c.items[j] in kept {
        FilterMembers(c.items, p, c.items[j]);
      }
      (Cache(kept, c.error), Done(None))
    case Some(t) => Fail(c, t, k, Delete)
  }

  // ---------------------------------------------------------------- what the updates keep

  /** A created row ends up in a list still sorted by key and one longer. */
  lemma CreateKeepsSorted<T>(c: Cache<T>, k: Kind, key: T -> string, d: T)
    ensures SortedBy(CreateLocal(c, k, key, Success(d)).0.items, key)
    ensures d in CreateLocal(c, k, key, Success(d)).0.items
    ensures forall x :: x in c.items ==> x in CreateLocal(c, k, key, Success(d)).0.items
  {
    var r := CreateLocal(c, k, key, Success(d)).0.items;
    SortBySorted(c.items + [d], key);
    assert d in multiset(r);
    forall x | x in c.items ensures x in r {
      assert x in multiset(c.items);
      assert x in multiset(r);
    }
  }

  /** After an update the list is sorted, the stored row is present when some
      row had that id, and every row with another id survives. */
  lemma UpdateKeepsOthers<T>(c: Cache<T>, k: Kind, key: T -> string, ident: T -> string, id: string, d: T)
    ensures SortedBy(UpdateLocal(c, k, key, ident, id, Success(d)).0.items, key)
    ensures (exists j :: 0 <= j < |c.items| && ident(c.items[j]) == id) ==> d in UpdateLocal(c, k, key, ident, id, Success(d)).0.items
    ensures forall x :: x in c.items && ident(x) != id ==> x in UpdateLocal(c, k, key, ident, id, Success(d)).0.items
  {
    var m := ReplaceById(c.items, ident, id, d);
    var r := UpdateLocal(c, k, key, ident, id, Success(d)).0.items;
    SortBySorted(m, key);
    if j :| 0 <= j < |c.items| && ident(c.items[j]) == id {
      assert m[j] == d;
      assert d in multiset(m);
    }
    forall x | x in c.items && ident(x) != id ensures x in r {
      var j :| 0 <= j < |c.items| && c.items[j] == x;
      assert m[j] == x;
      assert x in multiset(m);
    }
  }

  /** An update of an id not in the list only re-sorts it. */
  lemma UpdateUnknownId<T>(c: Cache<T>, k: Kind, key: T -> string, ident: T -> string, id: string, d: T)
    requires forall j :: 0 <= j < |c.items| ==> ident(c.items[j]) != id
    ensures multiset(UpdateLocal(c, k, key, ident, id, Success(d)).0.items) == multiset(c.items)
  {
    assert ReplaceById(c.items, ident, id, d) == c.items;
  }

  /** A delete keeps the surviving rows in their order: the kept rows sit at
      increasing positions of the old list. */
  lemma DeleteKeepsOrder<T>(c: Cache<T>, k: Kind, ident: T -> string, id: string)
    ensures var kept := DeleteLocal(c, k, ident, id, None).0.items;
      var idx := FilterIndices(c.items, OtherId(ident, id));
      |idx| == |kept| &&
      (forall a :: 0 <= a < |idx| ==> idx[a] < |c.items| && kept[a] == c.items[idx[a]]) &&
      (forall a, b :: 0 <= a < b < |idx| ==> idx[a] < idx[b])
  {
  }

  // ---------------------------------------------------------------- product codes

  const CodiceFallback: string := "PROD-001"

  lemma ShortNumber(n: nat)
    requires n < 1000
    ensures |NatToString(n)| <= 3
  {
    if n >= 10 {
      assert NatToString(n) == NatToString(n / 10) + [DigitChar(n % 10)];
      if n / 10 >= 10 {
        assert NatToString(n / 10) == NatToString(n / 100) + [DigitChar(n / 10 % 10)];
      }
    }
  }

  /** `generateCodiceProdotto`: the code the backend function returns; "PROD-001"
      when it returns nothing; when the call fails, "PROD-" and the three-digit
      zero-padded `draw` (`Math.floor(Math.random() * 1000)`). */
  function GenerateCodiceProdotto(rpc: Result<Option<string>, Thrown>, draw: nat): (code: string)
    requires draw < 1000
    ensures rpc.Success? && rpc.value.Some? && rpc.value.value != "" ==> code == rpc.value.value
    ensures rpc.Success? && (rpc.value.None? || rpc.value.value == "") ==> code == CodiceFallback
    ensures rpc.Failure? ==> |code| == 8 && code[..5] == "PROD-"
    ensures rpc.Failure? ==> AllDigits(code[5..]) && DigitsValue(code[5..]) == draw
  {
    match rpc
    case Success(v) => StrOr(v, CodiceFallback)
    case Failure(_) =>
      ShortNumber(draw);
      PaddedNumberRoundTrip(draw, 3);
      var digits := PadStart(NatToString(draw), 3, '0');
      var code := "PROD-" + digits;
      assert code[..5] == "PROD-" && code[5..] == digits;
      code
  }
}
