/**
  * What the pipeline asks of a PDF. The document library is not modelled; a
  * page is given by what its text extraction answers, for the whole page and
  * for any crop box.
  */
module Pdf {
  import opened Json

  /** `extract_text()`: it raises, returns `None`, or returns text. */
  datatype Extract = Raises | NoText | Text(text: string)

  /**
    * A page: the text of the whole page, and the text of `page.crop(bbox)` for
    * a bounding box given as the template's coordinate list (a crop outside
    * the page raises, like the extraction itself can).
    */
  datatype Page = Page(whole: Extract, crop: seq<Json> -> Extract)

  /** `pdfplumber.open(path)`: it fails with a message, or yields the pages. */
  datatype Document = Unreadable(message: string) | Document(pages: seq<Page>)
}
