/**
 The invoice records shared by the upload tracker and the invoice pages. Dates are opaque
 strings and amounts exact reals: no page computes with a date, and rounding is not modelled.
 */
module Invoices {
  import opened Wrappers

  datatype Party = Party(name: string, taxId: string, address: string)

  datatype LineItem = LineItem(description: string, quantity: real, unitPrice: real, amount: real)

  /** What OCR extracted from one invoice image; `confidence` lies in [0, 1]. */
  datatype OcrResult = OcrResult(
    invoiceNumber: string,
    date: string,
    seller: Party,
    buyer: Option<Party>,
    items: seq<LineItem>,
    totalAmount: real,
    taxAmount: real,
    confidence: real)

  /**
   An uploaded invoice as the list pages receive it. `status` stays a string: the pages compare it
   with string literals and fall back on a default for any value they do not know.
   */
  datatype Invoice = Invoice(
    id: string,
    fileName: string,
    fileSize: int,
    uploadDate: string,
    status: string,
    ocrResult: Option<OcrResult>)
}
