/**
 The copy loop shared by every printable document: a new document starts
 with one empty page; copy i > 0 first adds a page, and each copy is drawn
 on the last page.
 */
module Copies {
  datatype Sheet<T> = Blank | Drawn(content: T)

  /** N ≥ 1 copies give N identical drawn pages; N ≤ 0 leaves the one empty page. */
  method RenderCopies<T>(content: T, numeroCopie: int) returns (pages: seq<Sheet<T>>)
    ensures numeroCopie >= 1 ==> (|pages| == numeroCopie &&
      forall k :: 0 <= k < |pages| ==> pages[k] == Drawn(content))
    ensures numeroCopie < 1 ==> pages == [Blank]
  {
    pages := [Blank];
    var i := 0;
    while i < numeroCopie
      invariant 0 <= i <= (if numeroCopie > 0 then numeroCopie else 0)
      invariant i == 0 ==> pages == [Blank]
      invariant i > 0 ==> |pages| == i && forall k :: 0 <= k < i ==> pages[k] == Drawn(content)
    {
      if i > 0 {
        pages := pages + [Blank];
      }
      pages := pages[..|pages| - 1] + [Drawn(content)];
      i := i + 1;
    }
  }
}
