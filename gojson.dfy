/**
 * The three services of Go's `encoding/json` package the server calls,
 * given as functions so that the model holds for whatever the library does:
 *
 *  - `decodeObject(s)`: a `json.Decoder` reading from `s` (with `UseNumber`)
 *    decodes one value into a `map[string]any`; `None` when `Decode` returns an
 *    error, otherwise `Some(n)` where `n` is the decoder's `InputOffset()`
 *    afterwards (kept as a plain integer, as the server re-checks its range);
 *  - `valid(s)`: `json.Valid(s)`;
 *  - `unmarshalRequest(p)`: `json.Unmarshal(p, &req)` into the request
 *    structure `{ message: string }`; `None` when it returns an error,
 *    otherwise `Some(m)` with `m` the decoded `message` field ("" when absent).
 */
module GoJson {
  import opened Wrappers

  datatype JsonLib = JsonLib(
    decodeObject: string -> Option<int>,
    valid: string -> bool,
    unmarshalRequest: string -> Option<string>)
}
