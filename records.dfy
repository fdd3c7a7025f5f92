/** The records the store keeps and the wrappers the handlers return. */
module Records {

  datatype Option<T> = None | Some(value: T)

  datatype Result<T, E> = Success(value: T) | Failure(error: E)

  /** An `HTTPException`: status code and detail text. */
  datatype HttpError = HttpError(status: nat, detail: string)

  /** One stored question/answer exchange (the dict built in `add_chat`). */
  datatype Entry = Entry(
    id: string,
    question: string,
    answer: string,
    source: string,
    timestamp: string,
    chatId: string)

  /** The metadata kept for one uploaded file (the dict built in `upload_files`). */
  datatype FileMeta = FileMeta(filename: string, size: nat, uploadTime: string, id: string)

  /** `d.get(k, [])` on a dictionary of lists. */
  function Get<V>(m: map<string, seq<V>>, k: string): seq<V> {
    if k in m then m[k] else []
  }
}
