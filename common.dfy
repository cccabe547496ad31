/** Values shared by the frontend components and the backend model. */
module Common {

  datatype Option<+T> = None | Some(value: T)

  /** What an awaited `fetch` produced, as seen by the component that
      awaited it: a response with `ok` set (and its decoded body), a
      response whose status is not in the 2xx range, or a thrown error
      (network failure, or a body that could not be decoded). */
  datatype Response<+T> = Ok(body: T) | NotOk(status: int) | Thrown

  /** A transaction as the frontend holds it after `GET /transactions/`:
      id and date are assigned by the server, the amount is an expense. */
  datatype Transaction = Transaction(
    id: int,
    amount: real,
    category: string,
    description: string,
    date: string)
}
