/**
 * rinse/wsse.py: WS-Security UsernameToken headers.  `append_wsse_headers`
 * registers the 'wsse' prefix and appends one wsse:Security header carrying
 * the user name and password as given.
 */
module Wsse {
  import opened Base
  import opened Xml
  import opened Message

  const NS_WSSE: string := "http://docs.oasis-open.org/wss/2004/01/oasis-200401-wss-wssecurity-secext-1.0.xsd"

  /** `wsse.Security(wsse.UsernameToken(wsse.Username(u), wsse.Password(p)))`. */
  function SecurityHeader(username: string, password: string): (r: Node)
    ensures Matches(r, QName(NS_WSSE, "Security")) && |r.children| == 1
  {
    Elem(NS_WSSE, "Security", map[], [
      Elem(NS_WSSE, "UsernameToken", map[], [
        Leaf(NS_WSSE, "Username", username),
        Leaf(NS_WSSE, "Password", password)])])
  }

  /** The credentials a wsse:Security header carries, None for any other shape. */
  function ReadUsernameToken(h: Node): (r: Option<(string, string)>)
    ensures r.Some? ==> Matches(h, QName(NS_WSSE, "Security"))
  {
    if Matches(h, QName(NS_WSSE, "Security")) && |h.children| == 1
       && Matches(h.children[0], QName(NS_WSSE, "UsernameToken")) && |h.children[0].children| == 2
    then
      var token := h.children[0];
      if Matches(token.children[0], QName(NS_WSSE, "Username"))
         && Matches(token.children[1], QName(NS_WSSE, "Password"))
         && TextOf(token.children[0]).Some? && TextOf(token.children[1]).Some?
      then Some((TextOf(token.children[0]).value, TextOf(token.children[1]).value))
      else None
    else None
  }

  /** The header carries the credentials unchanged, whatever they are. */
  lemma SecurityHeaderRoundTrip(username: string, password: string)
    ensures ReadUsernameToken(SecurityHeader(username, password)) == Some((username, password))
  {
  }

  /** Different credentials never give the same header. */
  lemma SecurityHeaderInjective(u1: string, p1: string, u2: string, p2: string)
    requires SecurityHeader(u1, p1) == SecurityHeader(u2, p2)
    ensures u1 == u2 && p1 == p2
  {
    SecurityHeaderRoundTrip(u1, p1);
    SecurityHeaderRoundTrip(u2, p2);
  }

  /**
   * `append_wsse_headers(msg, username, password)`.  A conflicting 'wsse'
   * binding raises before anything is appended; otherwise exactly one
   * header is appended after the existing ones.
   */
  method AppendWsseHeaders(msg: SoapMessage, username: string, password: string) returns (r: Outcome)
    requires msg.Valid()
    modifies msg`nsmap, msg`makers, msg`headers
    ensures msg.Valid()
    ensures "wsse" in old(msg.nsmap) && old(msg.nsmap)["wsse"] != NS_WSSE ==>
      && r == Fail(NamespaceConflict("wsse", old(msg.nsmap)["wsse"]))
      && msg.headers == old(msg.headers) && msg.nsmap == old(msg.nsmap) && msg.makers == old(msg.makers)
    ensures !("wsse" in old(msg.nsmap) && old(msg.nsmap)["wsse"] != NS_WSSE) ==>
      && r == Pass
      && msg.headers == old(msg.headers) + [SecurityHeader(username, password)]
      && msg.nsmap == old(msg.nsmap)["wsse" := NS_WSSE]
    ensures "wsse" in old(msg.nsmap) ==> msg.makers == old(msg.makers)
    ensures "wsse" !in old(msg.nsmap) ==>
      "wsse" in msg.makers && fresh(msg.makers["wsse"])
      && msg.makers == old(msg.makers)["wsse" := msg.makers["wsse"]]
  {
    var wsse := msg.Elementmaker("wsse", NS_WSSE);
    if wsse.Err? {
      return Fail(wsse.error);
    }
    msg.headers := msg.headers + [SecurityHeader(username, password)];
    r := Pass;
  }
}
