/**
 * What the client can observe of one request to the question-answering
 * service: either the request (or the parsing of its JSON body) threw, or
 * it completed with a status that is or is not ok and a parsed body.
 */
module BackendApi {
  import opened Wrappers

  /** The fields of the parsed JSON body the client reads; absent ones are `None`. */
  datatype Body = Body(error: Option<string>, answer: Option<string>, message: Option<string>)

  /**
   * `Thrown`: `fetch` rejected, or `response.json()` rejected, or the body
   * was JSON `null` so reading a field of it threw; all land in the same `catch`.
   * `Completed(ok, data)`: `response.ok` and the parsed body.
   */
  datatype Response = Thrown | Completed(ok: bool, data: Body)

  /** The request bodies the client sends. */
  datatype PdfFile = PdfFile(name: string, bytes: seq<bv8>)
  datatype Request = UploadPdf(file: PdfFile) | AskQuestion(question: string)
}
