/**
 * An abstract ReportLab canvas: a fixed page size, the current font, the
 * draw commands of the page being built, and the finished pages in order.
 * Coordinates are millimetres from the bottom-left corner.
 */
module Pdf {

  datatype Font = Font(name: string, size: nat)

  /** One `drawString(x, y, text)` call, with the font in effect when it was made. */
  datatype DrawCmd = Draw(x: int, y: int, font: Font, text: string)

  type Page = seq<DrawCmd>

  /** ReportLab's initial font, restored at the start of every page. */
  const InitialFont: Font := Font("Helvetica", 12)

  class Canvas {
    const width: int
    const height: int
    var font: Font
    var current: Page
    var pages: seq<Page>
    var saved: bool

    constructor (width: int, height: int)
      ensures this.width == width && this.height == height
      ensures font == InitialFont && current == [] && pages == [] && !saved
    {
      this.width := width;
      this.height := height;
      font := InitialFont;
      current := [];
      pages := [];
      saved := false;
    }

    /** `setFont(name, size)`: later strings on this page use that font. */
    method SetFont(f: Font)
      modifies this
      ensures font == f
      ensures current == old(current) && pages == old(pages) && saved == old(saved)
    {
      font := f;
    }

    /** `drawString(x, y, text)`: appends one command to the current page. */
    method DrawString(x: int, y: int, text: string)
      modifies this
      ensures current == old(current) + [Draw(x, y, font, text)]
      ensures font == old(font) && pages == old(pages) && saved == old(saved)
    {
      current := current + [Draw(x, y, font, text)];
    }

    /** `showPage()`: closes the current page and starts an empty one in the initial font. */
    method ShowPage()
      modifies this
      ensures pages == old(pages) + [old(current)]
      ensures current == [] && font == InitialFont && saved == old(saved)
    {
      pages := pages + [current];
      current := [];
      font := InitialFont;
    }

    /** `save()`: closes a page that still has content, then finishes the document. */
    method Save()
      modifies this
      ensures pages == if old(current) == [] then old(pages) else old(pages) + [old(current)]
      ensures current == [] && saved
    {
      if current != [] {
        ShowPage();
      }
      saved := true;
    }
  }
}
