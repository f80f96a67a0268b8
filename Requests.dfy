/**
 * One parsed finger query. `Request` is immutable: the three fields are
 * set once by the constructor and only read afterwards, so a datatype is
 * its exact counterpart. The getters `getUserName`, `getProxyHost` and
 * `isVerbose` are the destructors `userName`, `proxyHost` and `verbose`.
 */
module Requests {

  datatype Request = Request(userName: string, proxyHost: string, verbose: bool)
}
