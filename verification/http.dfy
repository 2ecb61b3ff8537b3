/** The error a FastAPI route raises: `HTTPException(status_code, detail)`. */
module Http {
  datatype HttpError = HttpError(status: nat, detail: string)
}
