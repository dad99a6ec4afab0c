/** Choosing the proxy configuration when the server starts. A parameter the
    caller did not give is `None`; an empty string counts as not given. */
module Proxy {
  import opened Wrappers

  datatype ProxyConfig =
    | NoProxy
    | Webshare(username: string, password: string)
    | Generic(httpProxy: Option<string>, httpsProxy: Option<string>)

  /** Python truthiness of an optional string. */
  predicate Given(s: Option<string>)
  {
    s.Some? && s.value != ""
  }

  /** Webshare credentials win when both are given; otherwise a generic proxy
      when either URL is given; otherwise none. */
  function SelectProxy(
    username: Option<string>,
    password: Option<string>,
    httpProxy: Option<string>,
    httpsProxy: Option<string>
  ): (r: ProxyConfig)
    ensures r.Webshare? <==> Given(username) && Given(password)
    ensures r.Generic? <==> !(Given(username) && Given(password)) && (Given(httpProxy) || Given(httpsProxy))
    ensures r.NoProxy? <==> !(Given(username) && Given(password)) && !Given(httpProxy) && !Given(httpsProxy)
    ensures r.Webshare? ==> username == Some(r.username) && password == Some(r.password)
    ensures r.Generic? ==> r.httpProxy == httpProxy && r.httpsProxy == httpsProxy
  {
    if Given(username) && Given(password) then Webshare(username.value, password.value)
    else if Given(httpProxy) || Given(httpsProxy) then Generic(httpProxy, httpsProxy)
    else NoProxy
  }
}
