/** Decoded JSON documents, as json.load returns them, and the state of a file that is
    read with json.load. */
module JsonValues {

  /** A decoded JSON value. An object is a dict from its keys to their values. */
  datatype Json =
    | Null
    | Bool(b: bool)
    | Int(i: int)
    | Float(f: real)
    | Str(s: string)
    | Arr(items: seq<Json>)
    | Obj(fields: map<string, Json>)

  /** A file opened for json.load: absent (FileNotFoundError), not valid JSON
      (JSONDecodeError), or holding a document. */
  datatype JsonFile = FileNotFound | Undecodable | Decoded(doc: Json)
}
