/** The parts of a parsed URL the mirrorer reads, and the one way its string handling fails. */
module Urls {
  import opened Wrappers

  /**
   * The fields of Node's `url.parse(s)` that are used: `hostname` (no port),
   * `host` (with port) and `path` (path and query). Each may be `null`.
   * The parser itself is a foreign call; the model takes its results as given.
   */
  datatype Url = Url(hostname: Option<string>, host: Option<string>, path: Option<string>)

  /**
   * The exception the modelled code can raise: a string operation on a `null`
   * path (`path.split`, or `path.relative` given `null`) throws a TypeError.
   */
  datatype Fault = NullPath
}
