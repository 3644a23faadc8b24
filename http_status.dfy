/** The HTTP status codes the error handler uses (RFC 9110, section 15). */
module HttpStatus {
  const StatusOK: int := 200                  // section 15.3.1 of RFC 9110
  const StatusBadRequest: int := 400          // section 15.5.1 of RFC 9110
  const StatusUnauthorized: int := 401        // section 15.5.2 of RFC 9110
  const StatusForbidden: int := 403           // section 15.5.4 of RFC 9110
  const StatusNotFound: int := 404            // section 15.5.5 of RFC 9110
  const StatusInternalServerError: int := 500 // section 15.6.1 of RFC 9110
}
