/** FastAPI's `HTTPException`, as the routes raise it. */
module Http {
  datatype HttpError = HttpError(status: nat, detail: string)
}
