/**
 * rinse/wsa.py: WS-Addressing headers.  `append_wsa_headers` checks the
 * cross-field rules of section 3 of W3C WS-Addressing 1.0 Core, sets a
 * quoted SOAPAction HTTP header, registers the 'wsa' prefix and appends the
 * addressing headers in one fixed order.
 */
module Wsa {
  import opened Base
  import opened Xml
  import opened Message

  const NS_WSA: string := "http://www.w3.org/2005/08/addressing"
  const URI_ANONYMOUS: string := "http://schemas.xmlsoap.org/ws/2004/08/addressing/role/anonymous"
  const URI_UNSPECIFIED: string := "http://schemas.xmlsoap.org/ws/2004/08/addressing/id/unspecified"

  /** The arguments of `append_wsa_headers` after `msg`. */
  datatype Addressing = Addressing(
    to: string,
    action: string,
    messageId: Option<string>,
    relatesTo: Option<string>,
    relationshipType: Option<string>,
    replyTo: Option<string>,
    fromEndpoint: Option<string>,
    faultTo: Option<string>)

  /** The rule the checks report, in the order they run; None when all three hold. */
  function Violation(a: Addressing): (r: Option<AddressingRule>)
    ensures r.None? <==>
      && (Truthy(a.replyTo) ==> Truthy(a.messageId))
      && (Truthy(a.faultTo) ==> Truthy(a.messageId))
      && (Truthy(a.relationshipType) ==> Truthy(a.relatesTo))
    ensures r == Some(ReplyToNeedsMessageId) <==> Truthy(a.replyTo) && !Truthy(a.messageId)
    ensures r == Some(FaultToNeedsMessageId) <==>
      !Truthy(a.replyTo) && Truthy(a.faultTo) && !Truthy(a.messageId)
    ensures r == Some(RelationshipTypeNeedsRelatesTo) <==>
      && (Truthy(a.replyTo) || Truthy(a.faultTo) ==> Truthy(a.messageId))
      && Truthy(a.relationshipType) && !Truthy(a.relatesTo)
  {
    if Truthy(a.replyTo) && !Truthy(a.messageId) then Some(ReplyToNeedsMessageId)
    else if Truthy(a.faultTo) && !Truthy(a.messageId) then Some(FaultToNeedsMessageId)
    else if Truthy(a.relationshipType) && !Truthy(a.relatesTo) then Some(RelationshipTypeNeedsRelatesTo)
    else None
  }

  /** `'"{}"'.format(action)`. */
  function Quoted(action: string): (r: string)
    ensures |r| == |action| + 2 && r[0] == '"' && r[|r| - 1] == '"' && r[1..|r| - 1] == action
  {
    "\"" + action + "\""
  }

  /** wsa:ReplyTo / wsa:FaultTo: an endpoint reference holding one wsa:Address. */
  function EndpointReference(local: string, address: string): Node
  {
    Elem(NS_WSA, local, map[], [Leaf(NS_WSA, "Address", address)])
  }

  /** wsa:RelatesTo, with a RelationshipType attribute when one is given. */
  function RelatesToHeader(relatesTo: string, relationshipType: Option<string>): Node
  {
    Elem(NS_WSA, "RelatesTo",
      if Truthy(relationshipType) then map["RelationshipType" := relationshipType.value] else map[],
      [Text(relatesTo)])
  }

  /** The string an optional argument holds, "" for None. */
  function Val(o: Option<string>): (r: string)
    ensures Truthy(o) ==> o == Some(r)
  {
    if o.Some? then o.value else ""
  }

  /** `[x] if present else []`: the header list's filter of None entries. */
  function Opt(present: bool, x: Node): (r: seq<Node>)
    ensures |r| <= 1 && (forall y :: y in r <==> present && y == x)
  {
    if present then [x] else []
  }

  /** The headers `append_wsa_headers` appends: the seven candidates with the None ones dropped. */
  function WsaHeaders(a: Addressing): (r: seq<Node>)
    ensures 2 <= |r| <= 7
  {
    Opt(Truthy(a.messageId), Leaf(NS_WSA, "MessageID", Val(a.messageId)))
    + (Opt(Truthy(a.relatesTo), RelatesToHeader(Val(a.relatesTo), a.relationshipType))
    + ([Leaf(NS_WSA, "To", a.to), Leaf(NS_WSA, "Action", a.action)]
    + (Opt(Truthy(a.fromEndpoint), Leaf(NS_WSA, "From", Val(a.fromEndpoint)))
    + (Opt(Truthy(a.replyTo), EndpointReference("ReplyTo", Val(a.replyTo)))
    + Opt(Truthy(a.faultTo), EndpointReference("FaultTo", Val(a.faultTo)))))))
  }

  /** Position of a header name in the canonical order MessageID, RelatesTo, To, Action, From, ReplyTo, FaultTo. */
  function Rank(local: string): nat
  {
    if local == "MessageID" then 0
    else if local == "RelatesTo" then 1
    else if local == "To" then 2
    else if local == "Action" then 3
    else if local == "From" then 4
    else if local == "ReplyTo" then 5
    else if local == "FaultTo" then 6
    else 7
  }

  /** Each header a wsa element whose canonical rank lies in [lo, hi), ranks strictly increasing. */
  predicate RanksWithin(hs: seq<Node>, lo: nat, hi: nat)
    decreases |hs|
  {
    hs == [] ||
      (&& hs[0].Elem? && hs[0].ns == NS_WSA && lo <= Rank(hs[0].local) < hi
       && RanksWithin(hs[1..], Rank(hs[0].local) + 1, hi))
  }

  /** The rank bounds as quantified facts: every header in range, earlier headers ranked lower. */
  lemma {:induction false} RanksWithinOrdered(hs: seq<Node>, lo: nat, hi: nat)
    requires RanksWithin(hs, lo, hi)
    ensures forall i :: 0 <= i < |hs| ==> hs[i].Elem? && hs[i].ns == NS_WSA && lo <= Rank(hs[i].local) < hi
    ensures forall i, j :: 0 <= i < j < |hs| ==> Rank(hs[i].local) < Rank(hs[j].local)
    decreases |hs|
  {
    if hs != [] {
      RanksWithinOrdered(hs[1..], Rank(hs[0].local) + 1, hi);
      forall i | 0 < i < |hs| ensures hs[i] == hs[1..][i - 1] { }
    }
  }

  /** The headers are wsa elements, in the canonical order, each name at most once. */
  predicate InCanonicalOrder(hs: seq<Node>)
  {
    && (forall i :: 0 <= i < |hs| ==> hs[i].Elem? && hs[i].ns == NS_WSA && Rank(hs[i].local) < 7)
    && (forall i, j :: 0 <= i < j < |hs| ==> Rank(hs[i].local) < Rank(hs[j].local))
  }

  lemma {:induction false} RanksConcat(xs: seq<Node>, ys: seq<Node>, lo: nat, mid: nat, hi: nat)
    requires lo <= mid <= hi
    requires RanksWithin(xs, lo, mid) && RanksWithin(ys, mid, hi)
    ensures RanksWithin(xs + ys, lo, hi)
    decreases |xs|
  {
    if xs == [] {
      assert xs + ys == ys;
      RanksWeaken(ys, lo, mid, hi);
    } else {
      assert (xs + ys)[0] == xs[0] && (xs + ys)[1..] == xs[1..] + ys;
      RanksConcat(xs[1..], ys, Rank(xs[0].local) + 1, mid, hi);
    }
  }

  lemma {:induction false} RanksWeaken(hs: seq<Node>, lo: nat, mid: nat, hi: nat)
    requires lo <= mid && RanksWithin(hs, mid, hi)
    ensures RanksWithin(hs, lo, hi)
  {
  }

  lemma RankValues()
    ensures Rank("MessageID") == 0 && Rank("RelatesTo") == 1 && Rank("To") == 2 && Rank("Action") == 3
    ensures Rank("From") == 4 && Rank("ReplyTo") == 5 && Rank("FaultTo") == 6
  {
  }

  lemma OptRanks(present: bool, x: Node, k: nat)
    requires x.Elem? && x.ns == NS_WSA && Rank(x.local) == k
    ensures RanksWithin(Opt(present, x), k, k + 1)
  {
    if present {
      assert Opt(present, x)[1..] == [];
    }
  }

  /** The appended headers are wsa elements, each name at most once, in the canonical order. */
  lemma WsaHeadersCanonical(a: Addressing)
    ensures RanksWithin(WsaHeaders(a), 0, 7)
    ensures InCanonicalOrder(WsaHeaders(a))
  {
    WsaHeadersRanked(a);
    RanksWithinOrdered(WsaHeaders(a), 0, 7);
  }

  lemma WsaHeadersRanked(a: Addressing)
    ensures RanksWithin(WsaHeaders(a), 0, 7)
  {
    var m := Opt(Truthy(a.messageId), Leaf(NS_WSA, "MessageID", Val(a.messageId)));
    var rt := Opt(Truthy(a.relatesTo), RelatesToHeader(Val(a.relatesTo), a.relationshipType));
    var ta := [Leaf(NS_WSA, "To", a.to), Leaf(NS_WSA, "Action", a.action)];
    var f := Opt(Truthy(a.fromEndpoint), Leaf(NS_WSA, "From", Val(a.fromEndpoint)));
    var rp := Opt(Truthy(a.replyTo), EndpointReference("ReplyTo", Val(a.replyTo)));
    var ft := Opt(Truthy(a.faultTo), EndpointReference("FaultTo", Val(a.faultTo)));
    RankValues();
    var tail := rp + ft;
    assert RanksWithin(tail, 5, 7) by {
      OptRanks(Truthy(a.replyTo), EndpointReference("ReplyTo", Val(a.replyTo)), 5);
      OptRanks(Truthy(a.faultTo), EndpointReference("FaultTo", Val(a.faultTo)), 6);
      RanksConcat(rp, ft, 5, 6, 7);
    }
    var fromOn := f + tail;
    assert RanksWithin(fromOn, 4, 7) by {
      OptRanks(Truthy(a.fromEndpoint), Leaf(NS_WSA, "From", Val(a.fromEndpoint)), 4);
      RanksConcat(f, tail, 4, 5, 7);
    }
    var toOn := ta + fromOn;
    assert RanksWithin(toOn, 2, 7) by {
      assert ta[1..][1..] == [];
      assert RanksWithin(ta, 2, 4);
      RanksConcat(ta, fromOn, 2, 4, 7);
    }
    var relatesOn := rt + toOn;
    assert RanksWithin(relatesOn, 1, 7) by {
      OptRanks(Truthy(a.relatesTo), RelatesToHeader(Val(a.relatesTo), a.relationshipType), 1);
      RanksConcat(rt, toOn, 1, 2, 7);
    }
    assert RanksWithin(m + relatesOn, 0, 7) by {
      OptRanks(Truthy(a.messageId), Leaf(NS_WSA, "MessageID", Val(a.messageId)), 0);
      RanksConcat(m, relatesOn, 0, 1, 7);
    }
  }

  // Reading the headers back: the partner that shows nothing is lost or invented.

  /** The first header named wsa:<local>. */
  function Find(hs: seq<Node>, local: string): (r: Option<Node>)
    ensures r.Some? ==> r.value in hs && Matches(r.value, QName(NS_WSA, local))
    ensures r.None? ==> forall h :: h in hs ==> !Matches(h, QName(NS_WSA, local))
  {
    if hs == [] then None
    else if Matches(hs[0], QName(NS_WSA, local)) then Some(hs[0])
    else Find(hs[1..], local)
  }

  function TextHeader(hs: seq<Node>, local: string): Option<string>
  {
    match Find(hs, local)
    case None => None
    case Some(h) => TextOf(h)
  }

  function AddressHeader(hs: seq<Node>, local: string): Option<string>
  {
    match Find(hs, local)
    case None => None
    case Some(h) =>
      if |h.children| == 1 && Matches(h.children[0], QName(NS_WSA, "Address")) then TextOf(h.children[0]) else None
  }

  function RelationshipTypeHeader(hs: seq<Node>): Option<string>
  {
    match Find(hs, "RelatesTo")
    case None => None
    case Some(h) => if "RelationshipType" in h.attrs then Some(h.attrs["RelationshipType"]) else None
  }

  /** Recover the addressing arguments from a header list; None without wsa:To and wsa:Action. */
  function ReadAddressing(hs: seq<Node>): Option<Addressing>
  {
    var to := TextHeader(hs, "To");
    var action := TextHeader(hs, "Action");
    if to.None? || action.None? then None
    else Some(Addressing(to.value, action.value,
      TextHeader(hs, "MessageID"), TextHeader(hs, "RelatesTo"), RelationshipTypeHeader(hs),
      AddressHeader(hs, "ReplyTo"), TextHeader(hs, "From"), AddressHeader(hs, "FaultTo")))
  }

  /** An optional argument as Python's `if x` sees it: a falsy one is as good as absent. */
  function Normal(o: Option<string>): (r: Option<string>)
    ensures r.Some? <==> Truthy(o)
  {
    if Truthy(o) then o else None
  }

  function Normalized(a: Addressing): Addressing
  {
    a.(messageId := Normal(a.messageId), relatesTo := Normal(a.relatesTo),
       relationshipType := Normal(a.relationshipType), replyTo := Normal(a.replyTo),
       fromEndpoint := Normal(a.fromEndpoint), faultTo := Normal(a.faultTo))
  }

  /** Exactly which headers one call appends. */
  lemma WsaHeadersMembers(a: Addressing, y: Node)
    ensures y in WsaHeaders(a) <==>
      || y == Leaf(NS_WSA, "To", a.to)
      || y == Leaf(NS_WSA, "Action", a.action)
      || (Truthy(a.messageId) && y == Leaf(NS_WSA, "MessageID", a.messageId.value))
      || (Truthy(a.relatesTo) && y == RelatesToHeader(a.relatesTo.value, a.relationshipType))
      || (Truthy(a.fromEndpoint) && y == Leaf(NS_WSA, "From", a.fromEndpoint.value))
      || (Truthy(a.replyTo) && y == EndpointReference("ReplyTo", a.replyTo.value))
      || (Truthy(a.faultTo) && y == EndpointReference("FaultTo", a.faultTo.value))
  {
    var m := Opt(Truthy(a.messageId), Leaf(NS_WSA, "MessageID", Val(a.messageId)));
    var rt := Opt(Truthy(a.relatesTo), RelatesToHeader(Val(a.relatesTo), a.relationshipType));
    var ta := [Leaf(NS_WSA, "To", a.to), Leaf(NS_WSA, "Action", a.action)];
    var f := Opt(Truthy(a.fromEndpoint), Leaf(NS_WSA, "From", Val(a.fromEndpoint)));
    var rp := Opt(Truthy(a.replyTo), EndpointReference("ReplyTo", Val(a.replyTo)));
    var ft := Opt(Truthy(a.faultTo), EndpointReference("FaultTo", Val(a.faultTo)));
    assert y in WsaHeaders(a) <==> y in m || y in rt || y in ta || y in f || y in rp || y in ft;
  }

  /** In a list ranked by `Rank`, the element with a given name is the one `Find` returns. */
  lemma {:induction false} FindRanked(hs: seq<Node>, lo: nat, hi: nat, x: Node)
    requires RanksWithin(hs, lo, hi) && x in hs && x.Elem?
    ensures Find(hs, x.local) == Some(x)
    decreases |hs|
  {
    if hs[0] != x {
      assert x in hs[1..];
      RanksWithinOrdered(hs[1..], Rank(hs[0].local) + 1, hi);
      FindRanked(hs[1..], Rank(hs[0].local) + 1, hi, x);
    }
  }

  /** An appended header is the one found under its own name. */
  lemma FindAppended(a: Addressing, x: Node)
    requires x in WsaHeaders(a) && x.Elem?
    ensures Find(WsaHeaders(a), x.local) == Some(x)
  {
    WsaHeadersCanonical(a);
    FindRanked(WsaHeaders(a), 0, 7, x);
  }

  lemma ToActionRoundTrip(a: Addressing)
    ensures TextHeader(WsaHeaders(a), "To") == Some(a.to)
    ensures TextHeader(WsaHeaders(a), "Action") == Some(a.action)
  {
    WsaHeadersMembers(a, Leaf(NS_WSA, "To", a.to));
    WsaHeadersMembers(a, Leaf(NS_WSA, "Action", a.action));
    FindAppended(a, Leaf(NS_WSA, "To", a.to));
    FindAppended(a, Leaf(NS_WSA, "Action", a.action));
  }

  lemma MessageIdRoundTrip(a: Addressing)
    ensures TextHeader(WsaHeaders(a), "MessageID") == Normal(a.messageId)
  {
    if Truthy(a.messageId) {
      WsaHeadersMembers(a, Leaf(NS_WSA, "MessageID", a.messageId.value));
      FindAppended(a, Leaf(NS_WSA, "MessageID", a.messageId.value));
    } else {
      forall y | y in WsaHeaders(a) ensures !Matches(y, QName(NS_WSA, "MessageID")) {
        WsaHeadersMembers(a, y);
      }
    }
  }

  lemma RelatesToRoundTrip(a: Addressing)
    requires Truthy(a.relationshipType) ==> Truthy(a.relatesTo)
    ensures TextHeader(WsaHeaders(a), "RelatesTo") == Normal(a.relatesTo)
    ensures RelationshipTypeHeader(WsaHeaders(a)) == Normal(a.relationshipType)
  {
    if Truthy(a.relatesTo) {
      WsaHeadersMembers(a, RelatesToHeader(a.relatesTo.value, a.relationshipType));
      FindAppended(a, RelatesToHeader(a.relatesTo.value, a.relationshipType));
    } else {
      forall y | y in WsaHeaders(a) ensures !Matches(y, QName(NS_WSA, "RelatesTo")) {
        WsaHeadersMembers(a, y);
      }
    }
  }

  lemma FromRoundTrip(a: Addressing)
    ensures TextHeader(WsaHeaders(a), "From") == Normal(a.fromEndpoint)
  {
    if Truthy(a.fromEndpoint) {
      WsaHeadersMembers(a, Leaf(NS_WSA, "From", a.fromEndpoint.value));
      FindAppended(a, Leaf(NS_WSA, "From", a.fromEndpoint.value));
    } else {
      forall y | y in WsaHeaders(a) ensures !Matches(y, QName(NS_WSA, "From")) {
        WsaHeadersMembers(a, y);
      }
    }
  }

  lemma EndpointRoundTrip(a: Addressing)
    ensures AddressHeader(WsaHeaders(a), "ReplyTo") == Normal(a.replyTo)
    ensures AddressHeader(WsaHeaders(a), "FaultTo") == Normal(a.faultTo)
  {
    EndpointHeaderRoundTrip(a, "ReplyTo", a.replyTo);
    EndpointHeaderRoundTrip(a, "FaultTo", a.faultTo);
  }

  /** One endpoint-reference header, ReplyTo or FaultTo, carries its address back. */
  lemma EndpointHeaderRoundTrip(a: Addressing, local: string, endpoint: Option<string>)
    requires (local == "ReplyTo" && endpoint == a.replyTo) || (local == "FaultTo" && endpoint == a.faultTo)
    ensures AddressHeader(WsaHeaders(a), local) == Normal(endpoint)
  {
    if Truthy(endpoint) {
      var x := EndpointReference(local, endpoint.value);
      assert x in WsaHeaders(a) by { WsaHeadersMembers(a, x); }
      FindAppended(a, x);
      AddressOfFound(WsaHeaders(a), local, endpoint.value);
    } else {
      NoEndpointHeader(a, local, endpoint);
    }
  }

  /** The address `AddressHeader` reads from a found endpoint reference is the one it wraps. */
  lemma AddressOfFound(hs: seq<Node>, local: string, address: string)
    requires Find(hs, local) == Some(EndpointReference(local, address))
    ensures AddressHeader(hs, local) == Some(address)
  {
  }

  /** Without a truthy address, no header of that name is appended. */
  lemma NoEndpointHeader(a: Addressing, local: string, endpoint: Option<string>)
    requires (local == "ReplyTo" && endpoint == a.replyTo) || (local == "FaultTo" && endpoint == a.faultTo)
    requires !Truthy(endpoint)
    ensures Find(WsaHeaders(a), local) == None
  {
    forall y | y in WsaHeaders(a) ensures !Matches(y, QName(NS_WSA, local)) {
      WsaHeadersMembers(a, y);
    }
  }

  /**
   * For arguments that pass the checks, the appended headers carry exactly
   * the arguments: each optional header is present iff its argument is
   * truthy, with that value; To and Action are always there.
   */
  lemma WsaHeadersRoundTrip(a: Addressing)
    requires Violation(a).None?
    ensures ReadAddressing(WsaHeaders(a)) == Some(Normalized(a))
  {
    ToActionRoundTrip(a);
    MessageIdRoundTrip(a);
    RelatesToRoundTrip(a);
    FromRoundTrip(a);
    EndpointRoundTrip(a);
  }

  /**
   * `append_wsa_headers(msg, to, action, ...)`.  All three checks run before
   * anything changes.  SOAPAction is written before 'wsa' is registered, so
   * a conflicting 'wsa' binding fails with SOAPAction already set and no
   * header appended.
   */
  method AppendWsaHeaders(msg: SoapMessage, a: Addressing) returns (r: Outcome)
    requires msg.Valid()
    modifies msg`nsmap, msg`makers, msg`headers, msg.httpHeaders
    ensures msg.Valid()
    ensures Violation(a).Some? ==>
      && r == Fail(AddressingConstraint(Violation(a).value))
      && msg.headers == old(msg.headers) && msg.httpHeaders.items == old(msg.httpHeaders.items)
      && msg.nsmap == old(msg.nsmap) && msg.makers == old(msg.makers)
    ensures Violation(a).None? ==>
      msg.httpHeaders.items == old(msg.httpHeaders.items)["SOAPAction" := Quoted(a.action)]
    ensures Violation(a).None? && "wsa" in old(msg.nsmap) && old(msg.nsmap)["wsa"] != NS_WSA ==>
      && r == Fail(NamespaceConflict("wsa", old(msg.nsmap)["wsa"]))
      && msg.headers == old(msg.headers) && msg.nsmap == old(msg.nsmap) && msg.makers == old(msg.makers)
    ensures Violation(a).None? && !("wsa" in old(msg.nsmap) && old(msg.nsmap)["wsa"] != NS_WSA) ==>
      && r == Pass
      && msg.headers == old(msg.headers) + WsaHeaders(a)
      && msg.nsmap == old(msg.nsmap)["wsa" := NS_WSA]
    ensures Violation(a).None? && "wsa" in old(msg.nsmap) ==> msg.makers == old(msg.makers)
    ensures Violation(a).None? && "wsa" !in old(msg.nsmap) ==>
      "wsa" in msg.makers && fresh(msg.makers["wsa"])
      && msg.makers == old(msg.makers)["wsa" := msg.makers["wsa"]]
  {
    var violation := Violation(a);
    if violation.Some? {
      return Fail(AddressingConstraint(violation.value));
    }
    msg.SetItem("SOAPAction", Quoted(a.action));
    var wsa := msg.Elementmaker("wsa", NS_WSA);
    if wsa.Err? {
      return Fail(wsa.error);
    }
    msg.headers := msg.headers + WsaHeaders(a);
    r := Pass;
  }
}
