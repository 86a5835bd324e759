/**
 Recognising the Grenke leasing model of a display unit from its product
 name: the name normalisation, the model key chosen by priority and the
 matcher used to find the row of a given model.
 */
module Grenke {
  import opened Strings

  /** `s.replace(/pat/g, rep)` for a literal pattern: leftmost matches, not overlapping. */
  function ReplaceAll(s: string, pat: string, rep: string): string
    requires |pat| > 0
    decreases |s|
  {
    if |s| == 0 then ""
    else if pat <= s then rep + ReplaceAll(s[|pat|..], pat, rep)
    else [s[0]] + ReplaceAll(s[1..], pat, rep)
  }

  /** A text without the pattern is left as it is. */
  lemma {:induction false} ReplaceAllAbsent(s: string, pat: string, rep: string)
    requires |pat| > 0 && !Contains(s, pat)
    ensures ReplaceAll(s, pat, rep) == s
    decreases |s|
  {
    if |s| > 0 {
      assert !Contains(s[1..], pat);
      ReplaceAllAbsent(s[1..], pat, rep);
      assert s == [s[0]] + s[1..];
    }
  }

  /** A text shorter than the pattern is left as it is. */
  lemma {:induction false} ReplaceAllShort(s: string, pat: string, rep: string)
    requires 0 < |pat| && |s| < |pat|
    ensures ReplaceAll(s, pat, rep) == s
    decreases |s|
  {
    if |s| > 0 {
      ReplaceAllShort(s[1..], pat, rep);
      assert s == [s[0]] + s[1..];
    }
  }

  /** A text lacking one of the pattern's characters is left as it is. */
  lemma {:induction false} ReplaceAllMissingChar(s: string, pat: string, rep: string, j: nat)
    requires j < |pat| && pat[j] !in s
    ensures ReplaceAll(s, pat, rep) == s
    decreases |s|
  {
    if |s| > 0 {
      assert pat[j] !in s[1..];
      ReplaceAllMissingChar(s[1..], pat, rep, j);
      assert s == [s[0]] + s[1..];
    }
  }

  predicate AllWordChars(s: string) {
    forall i :: 0 <= i < |s| ==> IsWordChar(s[i])
  }

  /**
   `s.replace(/\bw\b/g, d)` for a word `w` of word characters: an occurrence
   is replaced only when it is not preceded and not followed by a word
   character.  `prevWord` says whether the character before `s` was one;
   after a replacement the last character of `w` is.
   */
  /** `s` starts with `w` and the character after it, if any, is not a word character. */
  predicate WholeWordAt(s: string, w: string) {
    w <= s && (|s| == |w| || !IsWordChar(s[|w|]))
  }

  function ReplaceWordFrom(s: string, w: string, d: char, prevWord: bool): string
    requires |w| > 0
    decreases |s|
  {
    if |s| == 0 then ""
    else if !prevWord && WholeWordAt(s, w) then
      [d] + ReplaceWordFrom(s[|w|..], w, d, true)
    else [s[0]] + ReplaceWordFrom(s[1..], w, d, IsWordChar(s[0]))
  }

  function ReplaceWord(s: string, w: string, d: char): string
    requires |w| > 0
  {
    ReplaceWordFrom(s, w, d, false)
  }

  /** Within a run of word characters no occurrence can start. */
  lemma {:induction false} ReplaceWordInsideWord(s: string, w: string, d: char)
    requires |w| > 0 && AllWordChars(s)
    ensures ReplaceWordFrom(s, w, d, true) == s
    decreases |s|
  {
    if |s| > 0 {
      ReplaceWordInsideWord(s[1..], w, d);
      assert s == [s[0]] + s[1..];
    }
  }

  /** A single word different from `w` is left as it is. */
  lemma {:induction false} ReplaceWordOtherWord(s: string, w: string, d: char)
    requires |w| > 0 && AllWordChars(s) && s != w
    ensures ReplaceWord(s, w, d) == s
  {
    if |s| > 0 {
      ReplaceWordInsideWord(s[1..], w, d);
      assert s == [s[0]] + s[1..];
    }
  }

  /** Words separated by a non-word character are rewritten independently. */
  lemma {:induction false} ReplaceWordSplit(a: string, sep: char, b: string, w: string, d: char, prevWord: bool)
    requires |w| > 0 && AllWordChars(w) && !IsWordChar(sep)
    ensures ReplaceWordFrom(a + [sep] + b, w, d, prevWord) ==
      ReplaceWordFrom(a, w, d, prevWord) + [sep] + ReplaceWordFrom(b, w, d, false)
    decreases |a|
  {
    var s := a + [sep] + b;
    if |a| == 0 {
      ReplaceWordAtSeparator(sep, b, w, d, prevWord);
    } else {
      WholeWordAgrees(a, sep, b, w);
      if !prevWord && WholeWordAt(a, w) {
        assert s[|w|..] == a[|w|..] + [sep] + b;
        ReplaceWordSplit(a[|w|..], sep, b, w, d, true);
      } else {
        assert s[1..] == a[1..] + [sep] + b;
        assert s[0] == a[0];
        ReplaceWordSplit(a[1..], sep, b, w, d, IsWordChar(a[0]));
      }
    }
  }

  /** A separator is never the start of `w`, and after it no word character precedes. */
  lemma ReplaceWordAtSeparator(sep: char, b: string, w: string, d: char, prevWord: bool)
    requires |w| > 0 && AllWordChars(w) && !IsWordChar(sep)
    ensures ReplaceWordFrom([sep] + b, w, d, prevWord) == [sep] + ReplaceWordFrom(b, w, d, false)
  {
    var s := [sep] + b;
    assert !(w <= s) by {
      assert IsWordChar(w[0]);
    }
    assert s[0] == sep && s[1..] == b;
  }

  /** Appending a separator and more text does not change whether a whole
      word `w` starts `a`. */
  lemma WholeWordAgrees(a: string, sep: char, b: string, w: string)
    requires |w| > 0 && |a| > 0 && AllWordChars(w) && !IsWordChar(sep)
    ensures WholeWordAt(a + [sep] + b, w) <==> WholeWordAt(a, w)
  {
    var s := a + [sep] + b;
    if w <= s {
      assert s[|a|] == sep;
      assert |w| <= |a|;
      assert w <= a by {
        assert a[..|w|] == s[..|w|];
      }
    }
    if w <= a {
      assert s[..|w|] == a[..|w|];
      if |w| < |a| {
        assert s[|w|] == a[|w|];
      } else {
        assert s[|w|] == sep;
      }
    }
  }

  /** The numeral rewriting works word by word across a non-word separator. */
  lemma {:induction false} RomanToDigitsSplit(a: string, sep: char, b: string)
    requires !IsWordChar(sep)
    ensures RomanToDigits(a + [sep] + b) == RomanToDigits(a) + [sep] + RomanToDigits(b)
  {
    assert AllWordChars("iii") && AllWordChars("iv") && AllWordChars("v") && AllWordChars("ii");
    ReplaceWordSplit(a, sep, b, "iii", '3', false);
    var a1, b1 := ReplaceWord(a, "iii", '3'), ReplaceWord(b, "iii", '3');
    ReplaceWordSplit(a1, sep, b1, "iv", '4', false);
    var a2, b2 := ReplaceWord(a1, "iv", '4'), ReplaceWord(b1, "iv", '4');
    ReplaceWordSplit(a2, sep, b2, "v", '5', false);
    var a3, b3 := ReplaceWord(a2, "v", '5'), ReplaceWord(b2, "v", '5');
    ReplaceWordSplit(a3, sep, b3, "ii", '2', false);
  }

  predicate IsLowerAlnum(c: char) { IsAsciiLower(c) || IsDigit(c) }

  function LowerAlnum(c: char): bool { IsLowerAlnum(c) }

  /** The Roman numerals rewritten as whole words, in the order applied. */
  function RomanToDigits(s: string): string {
    ReplaceWord(ReplaceWord(ReplaceWord(ReplaceWord(s, "iii", '3'), "iv", '4'), "v", '5'), "ii", '2')
  }

  /** `normalizeGrenkeProductName`: lower-case, "leonardo" to "leo", the
      Roman numerals iii, iv, v, ii to digits as whole words, then drop every
      character outside a–z and 0–9. */
  function Normalize(nome: string): (n: string)
    ensures forall i :: 0 <= i < |n| ==> IsLowerAlnum(n[i])
  {
    Keep(RomanToDigits(ReplaceAll(ToLower(nome), "leonardo", "leo")), LowerAlnum)
  }

  /** A single word that is not one of the numerals keeps its Roman letters. */
  lemma {:induction false} RomanFixpoint(s: string)
    requires AllWordChars(s)
    requires s != "iii" && s != "iv" && s != "v" && s != "ii"
    ensures RomanToDigits(s) == s
  {
    ReplaceWordOtherWord(s, "iii", '3');
    ReplaceWordOtherWord(s, "iv", '4');
    ReplaceWordOtherWord(s, "v", '5');
    ReplaceWordOtherWord(s, "ii", '2');
  }

  /** A name already in normal form, without "leonardo" and not a bare numeral,
      is its own normal form. */
  lemma {:induction false} NormalizeFixpoint(s: string)
    requires forall i :: 0 <= i < |s| ==> IsLowerAlnum(s[i])
    requires !Contains(s, "leonardo")
    requires s != "iii" && s != "iv" && s != "v" && s != "ii"
    ensures Normalize(s) == s
  {
    assert ToLower(s) == s;
    ReplaceAllAbsent(s, "leonardo", "leo");
    RomanFixpoint(s);
    KeepAll(s, LowerAlnum);
  }

  /** Dropping characters across a rejected separator drops them on each side. */
  lemma {:induction false} KeepSplit(a: string, sep: char, b: string)
    requires !LowerAlnum(sep)
    ensures Keep(a + [sep] + b, LowerAlnum) == Keep(a, LowerAlnum) + Keep(b, LowerAlnum)
  {
    KeepConcat(a + [sep], b, LowerAlnum);
    KeepConcat(a, [sep], LowerAlnum);
    assert Keep([sep], LowerAlnum) == "" by {
      assert [sep][1..] == "";
    }
  }

  /** A single lower-case word other than a numeral survives the rewriting. */
  lemma {:induction false} PlainWord(w: string)
    requires forall i :: 0 <= i < |w| ==> IsLowerAlnum(w[i])
    requires w != "iii" && w != "iv" && w != "v" && w != "ii"
    ensures RomanToDigits(w) == w && Keep(w, LowerAlnum) == w
  {
    assert AllWordChars(w);
    RomanFixpoint(w);
    KeepAll(w, LowerAlnum);
  }

  /** Four words separated by single spaces are rewritten one by one. */
  lemma {:induction false} RomanFourWords(a: string, b: string, c: string, d: string)
    ensures RomanToDigits(a + [' '] + (b + [' '] + (c + [' '] + d))) ==
      RomanToDigits(a) + [' '] + (RomanToDigits(b) + [' '] + (RomanToDigits(c) + [' '] + RomanToDigits(d)))
  {
    RomanToDigitsSplit(a, ' ', b + [' '] + (c + [' '] + d));
    RomanToDigitsSplit(b, ' ', c + [' '] + d);
    RomanToDigitsSplit(c, ' ', d);
  }

  lemma {:induction false} KeepFourWords(a: string, b: string, c: string, d: string)
    ensures Keep(a + [' '] + (b + [' '] + (c + [' '] + d)), LowerAlnum) ==
      Keep(a, LowerAlnum) + (Keep(b, LowerAlnum) + (Keep(c, LowerAlnum) + Keep(d, LowerAlnum)))
  {
    KeepSplit(a, ' ', b + [' '] + (c + [' '] + d));
    KeepSplit(b, ' ', c + [' '] + d);
    KeepSplit(c, ' ', d);
  }

  /** The numeral "iv" on its own becomes "4". */
  lemma RomanIv()
    ensures RomanToDigits("iv") == "4"
  {
    assert AllWordChars("iv") && AllWordChars("4");
    ReplaceWordOtherWord("iv", "iii", '3');
    ReplaceWordOtherWord("4", "v", '5');
    ReplaceWordOtherWord("4", "ii", '2');
  }

  lemma {:induction false} ExampleWords(a: string, b: string, c: string, d: string)
    requires a == "espositore" && b == "leo" && c == "iv" && d == "plus"
    ensures RomanToDigits(a + [' '] + (b + [' '] + (c + [' '] + d))) == a + [' '] + (b + [' '] + ("4" + [' '] + d))
    ensures Keep(a + [' '] + (b + [' '] + ("4" + [' '] + d)), LowerAlnum) == a + (b + ("4" + d))
  {
    ExampleRomanWords(a, b, c, d);
    ExampleKeepWords(a, b, d);
  }

  lemma {:induction false} ExampleRomanWords(a: string, b: string, c: string, d: string)
    requires a == "espositore" && b == "leo" && c == "iv" && d == "plus"
    ensures RomanToDigits(a + [' '] + (b + [' '] + (c + [' '] + d))) == a + [' '] + (b + [' '] + ("4" + [' '] + d))
  {
    RomanFourWords(a, b, c, d);
    ExamplePlain(a, b, d);
    RomanIv();
  }

  lemma {:induction false} ExampleKeepWords(a: string, b: string, d: string)
    requires a == "espositore" && b == "leo" && d == "plus"
    ensures Keep(a + [' '] + (b + [' '] + ("4" + [' '] + d)), LowerAlnum) == a + (b + ("4" + d))
  {
    KeepFourWords(a, b, "4", d);
    ExamplePlain(a, b, d);
    PlainWord("4");
  }

  lemma {:induction false} ExamplePlain(a: string, b: string, d: string)
    requires a == "espositore" && b == "leo" && d == "plus"
    ensures RomanToDigits(a) == a && Keep(a, LowerAlnum) == a
    ensures RomanToDigits(b) == b && Keep(b, LowerAlnum) == b
    ensures RomanToDigits(d) == d && Keep(d, LowerAlnum) == d
  {
    PlainWord(a);
    PlainWord(b);
    PlainWord(d);
  }

  lemma ExampleLower()
    ensures ToLower("Espositore Leo IV Plus") == "espositore leo iv plus"
  {
  }

  lemma ExampleAlias()
    ensures ReplaceAll("espositore leo iv plus", "leonardo", "leo") == "espositore leo iv plus"
  {
    var lower := "espositore leo iv plus";
    assert lower[3] == 'o';
    ReplaceAllMissingChar(lower, "leonardo", "leo", 3);
  }

  lemma ExampleRoman(s: string)
    requires s == "espositore leo iv plus"
    ensures Keep(RomanToDigits(s), LowerAlnum) == "espositoreleo4plus"
  {
    ExamplePieces(s);
    ExampleWords("espositore", "leo", "iv", "plus");
  }

  lemma ExamplePieces(s: string)
    requires s == "espositore leo iv plus"
    ensures s == "espositore" + [' '] + ("leo" + [' '] + ("iv" + [' '] + "plus"))
    ensures "espositore" + ("leo" + ("4" + "plus")) == "espositoreleo4plus"
  {
  }

  /** Roman numerals are rewritten only as whole words. */
  lemma NormalizeExamples()
    ensures Normalize("Espositore Leo IV Plus") == "espositoreleo4plus"
  {
    ExampleLower();
    ExampleAlias();
    ExampleRoman("espositore leo iv plus");
  }

  /** A numeral glued to a word is not a whole word and is kept. */
  lemma NormalizeKeepsGluedNumeral()
    ensures Normalize("leoiv") == "leoiv"
  {
    assert ToLower("leoiv") == "leoiv";
    NormalizeFixpoint("leoiv");
  }

  lemma AliasExample()
    ensures ReplaceAll("leo-nardo", "leonardo", "leo") == "leo-nardo"
    ensures ReplaceAll("leonardo", "leonardo", "leo") == "leo"
  {
    var s := "leo-nardo";
    assert !("leonardo" <= s) by {
      assert s[3] != "leonardo"[3];
    }
    assert s[1..] == "eo-nardo";
    assert !("leonardo" <= s[1..]) by {
      assert s[1..][0] != "leonardo"[0];
    }
    ReplaceAllShort(s[2..], "leonardo", "leo");
    assert s == [s[0]] + ([s[1]] + s[2..]);
    var t := "leonardo";
    assert t[8..] == "";
  }

  lemma {:induction false} HyphenWords(a: string, b: string)
    requires a == "leo" && b == "nardo"
    ensures Keep(RomanToDigits(a + ['-'] + b), LowerAlnum) == a + b
  {
    RomanToDigitsSplit(a, '-', b);
    PlainWord(a);
    PlainWord(b);
    KeepSplit(a, '-', b);
  }

  lemma HyphenRoman()
    ensures Keep(RomanToDigits("leo-nardo"), LowerAlnum) == "leonardo"
  {
    HyphenWords("leo", "nardo");
    assert "leo-nardo" == "leo" + ['-'] + "nardo";
    assert "leo" + "nardo" == "leonardo";
  }

  lemma LeoRoman()
    ensures Keep(RomanToDigits("leo"), LowerAlnum) == "leo"
  {
    PlainWord("leo");
  }

  /** Normalising is not idempotent: deleting punctuation can form "leonardo". */
  lemma NormalizeNotIdempotent()
    ensures Normalize("leo-nardo") == "leonardo"
    ensures Normalize(Normalize("leo-nardo")) == "leo"
  {
    assert ToLower("leo-nardo") == "leo-nardo";
    assert ToLower("leonardo") == "leonardo";
    AliasExample();
    HyphenRoman();
    LeoRoman();
  }

  /** The model keys, `default` standing for no recognised model. */
  datatype ModelKey = Leo2 | Leo3 | Leo4 | Leo5 | Titano | Default

  function KeyName(k: ModelKey): string {
    match k
    case Leo2 => "leo2"
    case Leo3 => "leo3"
    case Leo4 => "leo4"
    case Leo5 => "leo5"
    case Titano => "titano"
    case Default => "default"
  }

  /** The position of a model in the order the models are tried. */
  function Rank(k: ModelKey): nat {
    match k
    case Leo2 => 0
    case Leo3 => 1
    case Leo4 => 2
    case Leo5 => 3
    case Titano => 4
    case Default => 5
  }

  /** `getGrenkeModelKeyFromNomeProdotto`: the first model in priority order
      whose name occurs in the normalised product name. */
  function ModelKeyOf(nome: string): (k: ModelKey)
    ensures k == Default <==> forall m: ModelKey :: m != Default ==> !Contains(Normalize(nome), KeyName(m))
    ensures k != Default ==> Contains(Normalize(nome), KeyName(k))
    ensures forall m: ModelKey :: Rank(m) < Rank(k) ==> !Contains(Normalize(nome), KeyName(m))
  {
    var n := Normalize(nome);
    if Contains(n, KeyName(Leo2)) then Leo2
    else if Contains(n, KeyName(Leo3)) then Leo3
    else if Contains(n, KeyName(Leo4)) then Leo4
    else if Contains(n, KeyName(Leo5)) then Leo5
    else if Contains(n, KeyName(Titano)) then Titano
    else Default
  }

  /** The five names a model key may have, `default` excluded. */
  predicate IsModelName(key: string) {
    exists m: ModelKey :: m != Default && KeyName(m) == key
  }

  /** `matchesGrenkeModel(nome, key)`: a non-empty normalised name containing
      one of the five model names; `default` and unknown keys never match. */
  function MatchesGrenkeModel(nome: string, modelKey: string): (b: bool)
    ensures b <==> Normalize(nome) != "" && IsModelName(modelKey) && Contains(Normalize(nome), modelKey)
  {
    var n := Normalize(nome);
    if n == "" then false
    else if modelKey == "leo2" then Contains(n, KeyName(Leo2))
    else if modelKey == "leo3" then Contains(n, KeyName(Leo3))
    else if modelKey == "leo4" then Contains(n, KeyName(Leo4))
    else if modelKey == "leo5" then Contains(n, KeyName(Leo5))
    else if modelKey == "titano" then Contains(n, KeyName(Titano))
    else false
  }

  /** A recognised key always matches the name it was computed from, and the
      `default` key matches nothing. */
  lemma KeyMatchesItsName(nome: string)
    ensures ModelKeyOf(nome) != Default ==> MatchesGrenkeModel(nome, KeyName(ModelKeyOf(nome)))
    ensures !MatchesGrenkeModel(nome, KeyName(Default))
  {
    var k := ModelKeyOf(nome);
    if k != Default {
      var n := Normalize(nome);
      ContainsIff(n, KeyName(k));
      var i :| OccursAt(n, KeyName(k), i);
      assert n != "";
    }
  }

  /** The conditions text shown for each model. */
  function TestoCondizioni(k: ModelKey): string {
    match k
    case Leo2 => "TESTO_CONDIZIONI_LEO2"
    case Leo3 => "TESTO_CONDIZIONI_LEO3"
    case Leo4 => "TESTO_CONDIZIONI_LEO4"
    case Leo5 => "TESTO_CONDIZIONI_LEO5"
    case Titano => "TESTO_CONDIZIONI_TITANO"
    case Default => "TESTO_CONDIZIONI_GRENKE_DEFAULT"
  }
}
