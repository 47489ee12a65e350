/**
 * The proxy's error type and its conversion from I/O errors
 * (`src/error.rs`).
 */
module Errors {

  /** The kinds of `std::io::ErrorKind` a socket can report; only `UnexpectedEof` is singled out. */
  datatype IoErrorKind =
    | NotFound
    | PermissionDenied
    | ConnectionRefused
    | ConnectionReset
    | ConnectionAborted
    | NotConnected
    | BrokenPipe
    | TimedOut
    | WouldBlock
    | Interrupted
    | UnexpectedEof
    | Other

  /** `std::io::Error`: its kind and the text its `to_string()` yields. */
  datatype IoError = IoError(kind: IoErrorKind, message: string)

  /** `ProxyError`. */
  datatype ProxyError =
    | NetworkError(msg: string)
    | ConfigurationError(msg: string)
    | ConnectionClosed

  const NetworkPrefix := "Network error: "
  const ConfigurationPrefix := "Configuration error: "
  const ClosedText := "Connection closed"

  /** `impl From<std::io::Error> for ProxyError`: an end of stream is a closed connection, anything else a network error. */
  function FromIoError(err: IoError): (e: ProxyError)
    ensures e.ConnectionClosed? <==> err.kind == UnexpectedEof
    ensures !e.ConnectionClosed? ==> e == NetworkError(err.message)
    ensures !e.ConfigurationError?
  {
    match err.kind
    case UnexpectedEof => ConnectionClosed
    case _ => NetworkError(err.message)
  }

  /** `impl fmt::Display for ProxyError`. */
  function Display(e: ProxyError): (text: string)
    ensures e.NetworkError? ==> NetworkPrefix <= text && text[|NetworkPrefix|..] == e.msg
    ensures e.ConfigurationError? ==> ConfigurationPrefix <= text && text[|ConfigurationPrefix|..] == e.msg
    ensures e.ConnectionClosed? ==> text == ClosedText
  {
    match e
    case NetworkError(msg) => NetworkPrefix + msg
    case ConfigurationError(msg) => ConfigurationPrefix + msg
    case ConnectionClosed => ClosedText
  }

  /** What each variant displays as: a fixed prefix followed by the carried message, or the fixed closing text. */
  lemma DisplayForms(e: ProxyError)
    ensures e.ConnectionClosed? ==> Display(e) == "Connection closed"
    ensures e.NetworkError? ==> Display(e) == "Network error: " + e.msg
    ensures e.ConfigurationError? ==> Display(e) == "Configuration error: " + e.msg
  {
  }

  /** The first and fourth characters of a displayed error tell its variant apart. */
  lemma DisplayHead(e: ProxyError)
    ensures |Display(e)| >= 4
    ensures Display(e)[0] == (if e.NetworkError? then 'N' else 'C')
    ensures Display(e)[3] == (match e case NetworkError(_) => 'w' case ConfigurationError(_) => 'f' case ConnectionClosed => 'n')
  {
  }

  /** Display loses nothing: two errors that display alike are the same error. */
  lemma DisplayInjective(e1: ProxyError, e2: ProxyError)
    requires Display(e1) == Display(e2)
    ensures e1 == e2
  {
    var t := Display(e1);
    DisplayHead(e1);
    DisplayHead(e2);
    if e1.NetworkError? {
      assert e1.msg == t[|NetworkPrefix|..] == e2.msg;
    } else if e1.ConfigurationError? {
      assert e1.msg == t[|ConfigurationPrefix|..] == e2.msg;
    }
  }

  /** The text an I/O error is reported with once converted: "Connection closed" for an end of stream, the prefixed message otherwise. */
  lemma DisplayFromIoError(err: IoError)
    ensures err.kind == UnexpectedEof ==> Display(FromIoError(err)) == ClosedText
    ensures err.kind != UnexpectedEof ==> Display(FromIoError(err)) == NetworkPrefix + err.message
  {
  }
}
