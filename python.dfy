/** The few Python values and exceptions the server side passes around. */
module Python {

  /** A Python value as held in a dictionary (`None`, bool, int, str, list, dict). */
  datatype PyVal =
    | PyNone
    | PyBool(b: bool)
    | PyInt(i: int)
    | PyStr(s: string)
    | PyList(items: seq<PyVal>)
    | PyDict(entries: map<string, PyVal>)

  /** The exceptions the modelled code can raise, with their message. */
  datatype PyError =
    | KeyError(key: string)
    | ValueError(msg: string)
    | FileNotFoundError(msg: string)
    | AttributeError(msg: string)
}
