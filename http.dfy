/** The HTTP status codes the handlers answer with. */
module Http {
  const Ok := 200
  const Created := 201
  const BadRequest := 400
  const Forbidden := 403
  const NotFound := 404
  const Conflict := 409
  /** The handler's `catch` answer: an exception was thrown (a TypeError on a
      malformed body, a failed image conversion, a failed query). */
  const Internal := 500
  /** No answer at all: the handler threw outside its `try` block, which an
      Express 4 async handler leaves as an unhandled rejection. */
  const NoResponse := 0
}
