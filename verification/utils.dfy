/**
 The string helpers and validators of the shared utility module: Italian VAT
 number and tax code checks, `truncate`, `capitalize`, `getInitials` and the
 badge colour of an order state.
 */
module Utils {
  import opened Strings
  import opened Domain

  /** A character class of the two anchored validation patterns. */
  datatype CharClass = DigitClass | UpperLetterClass

  predicate InClass(c: char, k: CharClass) {
    match k
    case DigitClass => IsDigit(c)
    case UpperLetterClass => IsAsciiUpper(c)
  }

  /** An anchored regular expression that is a fixed sequence of character
      classes (`/^[0-9]{11}$/`, the tax-code pattern) matches `s`: one
      character per class, each in the class at its position. */
  predicate MatchesClasses(s: string, pattern: seq<CharClass>) {
    |s| == |pattern| && forall i :: 0 <= i < |s| ==> InClass(s[i], pattern[i])
  }

  function PartitaIvaPattern(): seq<CharClass> {
    seq(11, i => DigitClass)
  }

  /** `/^[A-Z]{6}[0-9]{2}[A-Z][0-9]{2}[A-Z][0-9]{3}[A-Z]$/` */
  function CodiceFiscalePattern(): seq<CharClass> {
    seq(16, CodiceFiscaleClass)
  }

  /** Letters at positions 0-5, 8, 11 and 15; digits elsewhere. */
  function CodiceFiscaleClass(i: int): CharClass {
    if i < 6 || i == 8 || i == 11 || i == 15 then UpperLetterClass else DigitClass
  }

  /** `validatePartitaIVA`: with whitespace removed, exactly eleven digits. */
  function ValidatePartitaIva(piva: string): (ok: bool)
    ensures ok <==> |StripSpaces(piva)| == 11 && AllDigits(StripSpaces(piva))
  {
    MatchesClasses(StripSpaces(piva), PartitaIvaPattern())
  }

  /** `validateCodiceFiscale`: with whitespace removed and upper-cased, six
      letters, two digits, a letter, two digits, a letter, three digits and a
      letter. */
  function ValidateCodiceFiscale(cf: string): (ok: bool)
    ensures ok <==> CodiceFiscaleShape(ToUpper(StripSpaces(cf)))
    ensures ok ==> |StripSpaces(cf)| == 16
  {
    var c := ToUpper(StripSpaces(cf));
    CodiceFiscaleShapeIff(c);
    MatchesClasses(c, CodiceFiscalePattern())
  }

  /** Sixteen characters: six letters, two digits, a letter, two digits, a
      letter, three digits and a letter. */
  predicate CodiceFiscaleShape(c: string) {
    |c| == 16 &&
    (forall i :: 0 <= i < 6 ==> IsAsciiUpper(c[i])) &&
    IsDigit(c[6]) && IsDigit(c[7]) && IsAsciiUpper(c[8]) &&
    IsDigit(c[9]) && IsDigit(c[10]) && IsAsciiUpper(c[11]) &&
    IsDigit(c[12]) && IsDigit(c[13]) && IsDigit(c[14]) && IsAsciiUpper(c[15])
  }

  lemma CodiceFiscaleShapeIff(c: string)
    ensures MatchesClasses(c, CodiceFiscalePattern()) <==> CodiceFiscaleShape(c)
  {
    var p := CodiceFiscalePattern();
    if |c| == 16 {
      assert forall i :: 0 <= i < 16 ==> p[i] == CodiceFiscaleClass(i);
    }
  }

  /** Whitespace anywhere in a VAT number is ignored. */
  lemma PartitaIvaIgnoresSpace(a: string, c: char, b: string)
    requires IsJsSpace(c)
    ensures ValidatePartitaIva(a + [c] + b) == ValidatePartitaIva(a + b)
  {
    assert StripSpaces(a + [c] + b) == StripSpaces(a + b) by {
      KeepConcat(a + [c], b, NotSpace);
      KeepConcat(a, [c], NotSpace);
      KeepConcat(a, b, NotSpace);
      assert Keep([c], NotSpace) == "";
    }
  }

  lemma {:induction false} StripSpacesCommutesWithLower(s: string)
    ensures StripSpaces(ToLower(s)) == ToLower(StripSpaces(s))
    decreases |s|
  {
    if |s| > 0 {
      StripSpacesCommutesWithLower(s[1..]);
      assert ToLower(s)[1..] == ToLower(s[1..]);
      assert s == [s[0]] + s[1..];
      if NotSpace(s[0]) {
        assert ToLower([s[0]] + Keep(s[1..], NotSpace)) ==
          [LowerChar(s[0])] + ToLower(Keep(s[1..], NotSpace));
      }
    }
  }

  /** The tax code check does not depend on the letter case it was typed in. */
  lemma CodiceFiscaleIgnoresCase(cf: string)
    ensures ValidateCodiceFiscale(ToLower(cf)) == ValidateCodiceFiscale(cf)
  {
    StripSpacesCommutesWithLower(cf);
    LowerOfUpper(StripSpaces(cf));
  }

  function Max0(n: int): nat { if n < 0 then 0 else n }

  /** `truncate(text, maxLength)`: text longer than the limit keeps its first
      `maxLength` characters (none for a negative limit) followed by "...". */
  function Truncate(text: string, maxLength: int): (r: string)
    ensures |text| <= maxLength ==> r == text
    ensures |text| > maxLength ==>
      |r| == Max0(maxLength) + 3 && r[..Max0(maxLength)] <= text && EndsWith(r, "...")
  {
    if |text| <= maxLength then text else text[..Max0(maxLength)] + "..."
  }

  /** `capitalize`: first character upper-cased, the rest lower-cased. */
  function Capitalize(text: string): (r: string)
    ensures |r| == |text|
    ensures |text| > 0 ==> r[0] == UpperChar(text[0])
    ensures forall i :: 1 <= i < |text| ==> r[i] == LowerChar(text[i])
  {
    if |text| == 0 then "" else [UpperChar(text[0])] + ToLower(text[1..])
  }

  /** Capitalising twice changes nothing more. */
  lemma CapitalizeIdempotent(text: string)
    ensures Capitalize(Capitalize(text)) == Capitalize(text)
  {
  }

  function FilterNonEmpty(ws: seq<string>): (r: seq<string>)
    ensures forall k :: 0 <= k < |r| ==> |r[k]| > 0
    ensures forall w :: w in r <==> w in ws && |w| > 0
    decreases |ws|
  {
    if |ws| == 0 then []
    else if |ws[0]| > 0 then [ws[0]] + FilterNonEmpty(ws[1..])
    else FilterNonEmpty(ws[1..])
  }

  lemma {:induction false} FilterNonEmptyConcat(a: seq<string>, b: seq<string>)
    ensures FilterNonEmpty(a + b) == FilterNonEmpty(a) + FilterNonEmpty(b)
    decreases |a|
  {
    if |a| == 0 {
      assert a + b == b;
    } else {
      assert (a + b)[1..] == a[1..] + b;
      FilterNonEmptyConcat(a[1..], b);
    }
  }

  /** The non-empty words of `s` separated by single spaces. */
  function Words(s: string): seq<string> {
    FilterNonEmpty(Split(s, ' '))
  }

  /** `getInitials`: the upper-cased first letters of the first two words. */
  function GetInitials(ragioneSociale: string): (r: string)
    ensures |r| <= 2
    ensures |r| == if |Words(ragioneSociale)| < 2 then |Words(ragioneSociale)| else 2
    ensures forall k :: 0 <= k < |r| ==> r[k] == UpperChar(Words(ragioneSociale)[k][0])
  {
    var ws := Take(Words(ragioneSociale), 2);
    seq(|ws|, k requires 0 <= k < |ws| => UpperChar(ws[k][0]))
  }

  /** Runs of spaces between words do not change the initials. */
  lemma InitialsIgnoreRepeatedSpaces(a: string, b: string)
    ensures GetInitials(a + " " + " " + b) == GetInitials(a + " " + b)
  {
    SplitAtSeparator(a, ' ', " " + b);
    assert a + " " + " " + b == a + [' '] + (" " + b);
    assert " " + b == [] + [' '] + b;
    SplitAtSeparator("", ' ', b);
    SplitAtSeparator(a, ' ', b);
    assert a + " " + b == a + [' '] + b;
    FilterNonEmptyConcat(Split(a, ' '), Split(" " + b, ' '));
    FilterNonEmptyConcat(Split("", ' '), Split(b, ' '));
    FilterNonEmptyConcat(Split(a, ' '), Split(b, ' '));
    assert FilterNonEmpty(Split("", ' ')) == [];
  }

  /** `getStatoBadgeColor` */
  function GetStatoBadgeColor(stato: StatoOrdine): string {
    match stato
    case Bozza => "bg-yellow-100 text-yellow-800"
    case Confermato => "bg-blue-100 text-blue-800"
    case Evaso => "bg-green-100 text-green-800"
    case Annullato => "bg-red-100 text-red-800"
  }

  /** Each of the four states has its own colour, none of them the grey fallback. */
  lemma BadgeColorsDistinct(a: StatoOrdine, b: StatoOrdine)
    ensures GetStatoBadgeColor(a) == GetStatoBadgeColor(b) <==> a == b
    ensures GetStatoBadgeColor(a) != "bg-gray-100 text-gray-800"
  {
  }
}
