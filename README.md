# rinse: SOAP message construction, modelled in Dafny

rinse is a small Python SOAP 1.1 client library built on lxml. This project
models its message-construction layer and proves properties of it:

- the `SoapMessage` (rinse/message.py and its older copy in
  rinse/__init__.py): a namespace registry that binds each prefix once and
  caches one element maker per prefix, an ordered list of SOAP header
  elements, an optional body, a dict of HTTP headers, the envelope
  `Envelope(Header(*headers), Body(body))` (section 4 of the SOAP 1.1 W3C
  Note) and the HTTP POST descriptor with its conditional SOAPAction header
  (section 6.1.1);
- the WS-Addressing composer `append_wsa_headers` (rinse/wsa.py): the three
  cross-field rules of section 3 of W3C WS-Addressing 1.0 Core, the quoted
  SOAPAction and the canonical header order;
- the WS-Security composer `append_wsse_headers` (rinse/wsse.py): one
  UsernameToken block (section 3.1 of the OASIS WSS UsernameToken Profile 1.0);
- the utilities of rinse/util.py: the element maker that turns int children
  into their decimal text, the schema cache with its identifier resolution
  and keying, the element-maker cache with its namespace-map merge,
  `recursive_dict` and the `cached_property` descriptor;
- `WSDL` (rinse/wsdl.py) with the XSD validator it builds (rinse/xsd.py):
  the first `/wsdl:definitions/wsdl:types/xsd:schema` element, memoised;
  validation of the message body only;
- `Response` (rinse/response.py): the first `/soapenv:Envelope/soapenv:Body`
  element of the parsed reply, and its string form.

XML is the value type `Xml.Node` (`Elem(ns, local, attrs, children) |
Text(text)`). What lxml and defusedxml do beyond building trees (parsing a
path, URL or byte string, evaluating a caller-chosen XPath expression,
compiling an XML Schema and validating against it) is passed in as the
function values of an `Xml.Lxml` record; UTF-8 decoding and pprint's
rendering of an attribute dict are passed in the same way. The fixed child
paths rinse selects with are evaluated in the model (`Xml.SelectPath`).
Python exceptions are `Err(e)` results; `Base.Error` names the exception
class. Objects whose attributes the source updates in place (`SoapMessage`,
the caches, `WSDL`, the HTTP header dict) are classes with `modifies`
clauses; everything else is values and functions.

Files: base.dfy (Option, Result, errors), xml.dfy (trees and path
selection), util.dfy, message.dfy, wsa.dfy, wsse.dfy, xsd.dfy, wsdl.dfy,
response.dfy, rinse.dfy (the older `SoapMessage` of rinse/__init__.py).

The older module rinse/__init__.py also carries `Response`, `SchemaCache`,
`ElementMakerCache` and `recursive_dict`, line for line the same as
rinse/response.py and rinse/util.py (rinse/__init__.py:139-205, 244-260);
`Response.Create`, `Util.SchemaCache` and `Util.RecursiveDict` model both
copies, and `Util.ElementMakerCache` takes a flag for which element maker it
builds (rinse/util.py's, or lxml's own in rinse/__init__.py:202).

The model does what the code does, including where the code is looser than
the standards it serves:
- A response with several Body children is accepted and the first is taken
  (rinse/response.py:16-18), although section 4 of the SOAP 1.1 W3C Note
  allows exactly one Body.
- `request(url, action)` adds SOAPAction whenever `action is not None`, so an
  empty action adds an empty header value (rinse/message.py:89-90); section
  6.1.1 of the SOAP 1.1 W3C Note gives an empty value a meaning of its own,
  and rinse sends the value exactly as given.
- `WSDL.xsd_validator` compiles the schema element directly and does not
  store it in the schema cache (rinse/wsdl.py:44-47).
- A message without a body (`SoapMessage()` or `SoapMessage(None)`) cannot
  build its envelope: `soapenv.Body(None)` hands lxml's element maker a None
  child, for which it has no type handler, so `etree()` and `request()` raise
  TypeError after binding 'soapenv' (`Util.ElementMaker.Call`,
  `Message.SoapMessage.Etree`).

## Model

| member | source | states |
|---|---|---|
| `Xml.Named` | rinse/response.py:16-18 | a child-name filter keeps exactly the children with that name, never more than there were |
| `Xml.FirstNamed` | rinse/response.py:16-18 | the index of the first child with a name: it carries that name and no earlier child does |
| `Xml.NamedHead` | rinse/response.py:18 | `[0]` of the children selected by name is the first child with that name |
| `Xml.Step` | rinse/wsdl.py:39-41 | one location step only ever selects nodes with the step's name |
| `Xml.SelectPath` | rinse/wsdl.py:39-41 | an absolute child path: nothing for an empty path, and a one-step path selects the root exactly when the root carries that name; `Xml.SelectPathSound`, `Xml.TwoStepPath` and `Xml.ThreeStepPath` state the rest |
| `Xml.WalkSound` | rinse/wsdl.py:39-41 | every node a multi-step child path reaches carries the path's last name |
| `Xml.SelectPathSound` | rinse/wsdl.py:39-41 | an absolute child path selects only elements named by its last step |
| `Xml.TwoStepPath` | rinse/response.py:16-18 | `/a/b` selects the root's `b` children in document order when the root is `a`, and nothing otherwise |
| `Xml.ThreeStepPath` | rinse/wsdl.py:39-41 | `/a/b/c` selects, in order, the `c` children of the root's `b` children when the root is `a` |
| `Xml.StepNonEmpty` | rinse/wsdl.py:39-41 | a step finds something exactly when some context node has a child of that name |
| `Xml.StepMembers` | rinse/wsdl.py:39-41 | a step selects exactly the named children of the element context nodes |
| `Xml.StepHead` | rinse/wsdl.py:39-41 | the first node a step selects is the first named child of the first context node that has one |
| `Xml.ElementsOf` | rinse/util.py:168-170 | iterating an element yields exactly its element children |
| `Xml.Tag` | rinse/util.py:164-165 | `.tag` is the bare local name without a namespace, and with one it is '{', the namespace, '}', then the local name |
| `Util.NatToStringDigits` | rinse/util.py:58-62 | `str(n)` of a natural is a non-empty run of decimal digits, without a leading zero, whose value is `n` |
| `Util.IntToStringRoundTrip` | rinse/util.py:58-62 | `int(str(i)) == i` for every int: the coercion loses nothing |
| `Util.CoerceArgs` | rinse/util.py:55-64 | the wrapper keeps the argument count and order, leaves no int, passes every non-int unchanged and turns each int into text that parses back to it |
| `Util.ElementMaker.Call` | rinse/util.py:47-65 | for XML-compatible strings, a call succeeds exactly when no argument is None and the maker coerces ints or no argument is an int; otherwise lxml raises TypeError; the element carries the maker's namespace, the called name and the keyword attributes untouched, with one child per argument in order |
| `Util.PathJoin` | rinse/util.py:83 | POSIX `os.path.join`: an absolute name replaces the directory; a relative name follows the directory, which stays a prefix, with one '/' between them when the directory does not end in one |
| `Util.Resolve` | rinse/util.py:77-83 | an absolute path or a URL is kept as it is; a bare name is lengthened and stays the suffix; `Util.ResolveKeepsExactlyPathsAndUrls` and `Util.ResolveIdempotent` state the rest |
| `Util.ResolveKeepsExactlyPathsAndUrls` | rinse/util.py:77-83 | an identifier is left unchanged exactly when it starts with '/' or contains ':'; a bare name becomes RINSE_DIR/res/ followed by the name |
| `Util.ResolveIdempotent` | rinse/util.py:77-83 | resolving a resolved identifier changes nothing |
| `Util.LoadSchema` | rinse/util.py:84-87 | the schema is the parsed document, or its first xpath match when an xpath is given, compiled; it succeeds exactly when that element compiles, and otherwise the parse error, IndexError for an empty match, or XMLSchemaParseError is raised |
| `Util.SchemaCache.Get` | rinse/util.py:75-88 | `get` never reads the cache: it always loads and compiles, and stores the result under the resolved identifier, overwriting |
| `Util.SchemaCache.Lookup` | rinse/util.py:90-92 | a subscript hit returns the stored schema; a miss goes through `get` without xpath |
| `Util.MissFillsKeyIffPathOrUrl` | rinse/util.py:83-92 | after a miss is filled, the same key hits exactly when it is an absolute path or a URL |
| `Util.MergeNsMap` | rinse/util.py:102-109 | the merged map has the keys of both maps; a caller's binding wins over the built-in soapenv one |
| `Util.ElementMakerCache.constructor` | rinse/util.py:102-109 | a new cache is empty and holds the merged namespace map |
| `Util.ElementMakerCache.Lookup` | rinse/util.py:111-116 | an unknown prefix raises KeyError; a known one yields a new maker for its URL, and nothing is stored |
| `Util.DictOfLastWins` | rinse/util.py:168-169 | `dict(pairs)` has exactly the keys of the pairs, each with the value of the last pair with that key |
| `Util.ElementValue` | rinse/util.py:168-170 | an element's value is a dict exactly when it has element children, and its leading text otherwise |
| `Util.ChildPairs` | rinse/util.py:168-169 | one pair per element child, in order, keyed by the child's tag and rendered attributes |
| `Util.ElementValueLastWins` | rinse/util.py:168-169 | an element's dict has one entry per distinct child key, holding the value of the last child with that key |
| `Util.DictOfZipped` | rinse/util.py:168-169 | `dict` of pairs zipped from keys and values has exactly those keys, each holding the value at the key's last position |
| `Util.ElementValueIsDictOf` | rinse/util.py:168-169 | an element with element children maps to `dict` of its children's pairs |
| `Util.ChildPairsZipped` | rinse/util.py:168-169 | the pairs of an element are its element children's keys zipped with their values, in order |
| `Util.AllOk` | rinse/util.py:157-162 | a tuple comprehension succeeds exactly when every item does, with the items' values in order |
| `Util.RecursiveDict` | rinse/util.py:155-171 | a list or tuple maps to a tuple of the same length, item by item; an element maps to its (tag+attributes, value) pair; anything else raises AttributeError |
| `Util.CachedProperty.Get` | rinse/util.py:179-183 | class access returns the descriptor; instance access calls the function once and stores its result under the property name, storing nothing when it raises |
| `Util.CachedProperty.Read` | rinse/util.py:179-183 | attribute access returns a stored value without calling the function, and otherwise goes through the descriptor |
| `Util.ReadTwice` | rinse/util.py:179-183 | two reads in a row call the function at most once when the first succeeds, and give the same value |
| `Message.EnvelopeParts` | rinse/message.py:74-80 | the envelope has exactly two children, Header then Body; Header holds the headers in list order and Body wraps the body |
| `Message.RequestHeaders` | rinse/message.py:88-90 | the request's headers are the message's, plus SOAPAction exactly when an action is given; every other header is unchanged |
| `Message.Envelope` | rinse/message.py:77-80 | the envelope is a soapenv:Envelope with two children; `Message.EnvelopeParts` states which |
| `Message.SoapActionOnNewMessage` | rinse/tests/test_client.py:14-32 | on a new message, SOAPAction is present exactly when an action is given, with that value, and Content-Type is text/xml;charset=UTF-8 |
| `Message.Target` | rinse/message.py:93 | `url or self.url`: a truthy url wins, otherwise the attribute's value, and AttributeError when neither exists |
| `Message.CallWithNodes` | rinse/message.py:77-80 | a maker fed elements only builds its element from them unchanged |
| `Message.SoapMessage.constructor` | rinse/message.py:29-42 | a new message has no bindings, no makers, no headers, the given body and exactly the Content-Type HTTP header |
| `Message.SoapMessage.GetItem` | rinse/message.py:44-46 | `msg[key]` reads the HTTP headers, raising KeyError for a missing key |
| `Message.SoapMessage.SetItem` | rinse/message.py:48-50 | `msg[key] = val` changes only that HTTP header |
| `Message.SoapMessage.DelItem` | rinse/message.py:52-54 | `del msg[key]` removes only that HTTP header, raising KeyError when it is missing |
| `Message.SoapMessage.Elementmaker` | rinse/message.py:56-72 | a new prefix is bound with one new maker for its URL; the same URL returns the cached maker and changes nothing; another URL raises ValueError and changes nothing; no binding is ever overwritten or removed |
| `Message.SoapMessage.Etree` | rinse/message.py:74-80 | binds soapenv (raising ValueError if it is bound elsewhere), adding one new maker only when soapenv was unbound, and returns the envelope of the current headers and body, or TypeError when there is no body |
| `Message.SoapMessage.Request` | rinse/message.py:86-96 | a POST to `url or self.url` carrying the envelope, with a new copy of the HTTP headers gaining SOAPAction exactly when an action is given; the message's own headers do not change; the maker cache gains a soapenv maker only when soapenv was unbound and the URL resolved; TypeError when there is no body |
| `Wsa.Violation` | rinse/wsa.py:60-72 | the three rules are checked in source order; the first broken one is reported, and none is reported exactly when all hold |
| `Wsa.Quoted` | rinse/wsa.py:75 | SOAPAction is the action between double quotes |
| `Wsa.WsaHeaders` | rinse/wsa.py:82-95 | `append_wsa_headers` appends between two and seven headers; `Wsa.WsaHeadersMembers`, `Wsa.WsaHeadersCanonical` and `Wsa.WsaHeadersRoundTrip` state which, in what order, and what they carry |
| `Wsa.WsaHeadersCanonical` | rinse/wsa.py:82-95 | the appended headers are wsa elements in the order MessageID, RelatesTo, To, Action, From, ReplyTo, FaultTo, each name at most once |
| `Wsa.WsaHeadersRanked` | rinse/wsa.py:82-95 | each appended header is a wsa element ranked above the one before it, within the seven canonical names |
| `Wsa.WsaHeadersMembers` | rinse/wsa.py:78-95 | To and Action are always appended; each optional header is appended exactly when its argument is truthy; ReplyTo and FaultTo wrap one wsa:Address; RelatesTo has a RelationshipType attribute exactly when one is truthy |
| `Wsa.WsaHeadersRoundTrip` | rinse/wsa.py:82-95 | for arguments that pass the checks, reading the appended headers back gives exactly the truthy arguments |
| `Wsa.MessageIdRoundTrip` | rinse/wsa.py:86 | wsa:MessageID carries message_id when it is truthy and is absent otherwise |
| `Wsa.RelatesToRoundTrip` | rinse/wsa.py:78-80 | wsa:RelatesTo and its RelationshipType attribute carry their arguments when truthy and are absent otherwise |
| `Wsa.EndpointRoundTrip` | rinse/wsa.py:91-92 | wsa:ReplyTo and wsa:FaultTo carry their address when truthy and are absent otherwise |
| `Wsa.EndpointHeaderRoundTrip` | rinse/wsa.py:91-92 | one of wsa:ReplyTo and wsa:FaultTo carries its address when truthy and is absent otherwise |
| `Wsa.AddressOfFound` | rinse/wsa.py:91-92 | reading an endpoint reference gives back the address it wraps |
| `Wsa.NoEndpointHeader` | rinse/wsa.py:91-92 | a falsy reply_to or fault_to appends no header of that name |
| `Wsa.FromRoundTrip` | rinse/wsa.py:90 | wsa:From carries from_endpoint when truthy and is absent otherwise |
| `Wsa.ToActionRoundTrip` | rinse/wsa.py:88-89 | wsa:To and wsa:Action always carry their arguments |
| `Wsa.AppendWsaHeaders` | rinse/wsa.py:10-95 | a broken rule raises before anything changes; otherwise SOAPAction is set first, then a conflicting wsa binding raises with nothing appended, else the headers are appended after the existing ones and the maker cache gains at most a new wsa maker |
| `Wsse.ReadUsernameToken` | rinse/wsse.py:43-48 | credentials are read only from a wsse:Security element |
| `Wsse.SecurityHeader` | rinse/wsse.py:43-48 | the header is one wsse:Security element with a single child; `Wsse.SecurityHeaderRoundTrip` and `Wsse.SecurityHeaderInjective` state what it carries |
| `Wsse.SecurityHeaderRoundTrip` | rinse/wsse.py:43-48 | the Security header holds one UsernameToken whose Username and Password carry the given credentials unchanged |
| `Wsse.SecurityHeaderInjective` | rinse/wsse.py:43-48 | different credentials never give the same Security header |
| `Wsse.AppendWsseHeaders` | rinse/wsse.py:40-49 | a conflicting wsse binding raises with nothing appended; otherwise exactly one Security header is appended after the existing ones and the maker cache gains at most a new wsse maker; body and HTTP headers are untouched |
| `Xsd.NewXsdValidator` | rinse/xsd.py:17-20 | a validator exists exactly when the schema element compiles, and is built over that element; XMLSchemaParseError otherwise |
| `Xsd.IsValid` | rinse/xsd.py:26-28 | the schema's verdict on an element; TypeError for None or anything that is not an element |
| `Xsd.Validate` | rinse/xsd.py:22-24 | passes exactly when the element is accepted, DocumentInvalid otherwise; TypeError for None or anything that is not an element |
| `Xsd.ValidateAgreesWithIsValid` | rinse/xsd.py:22-28 | `validate` passes exactly when `is_valid` is True |
| `Wsdl.SchemaOf` | rinse/wsdl.py:36-42 | the schema is an xsd:schema element, and IndexError when the path selects nothing |
| `Wsdl.SchemaOfFound` | rinse/wsdl.py:39-41 | a schema is found exactly when the root is wsdl:definitions with a wsdl:types child holding an xsd:schema child |
| `Wsdl.SchemaOfFirst` | rinse/wsdl.py:39-41 | the schema is the first xsd:schema child of the first wsdl:types child, when that one has any |
| `Wsdl.ValidatorOf` | rinse/wsdl.py:44-47 | the validator exists exactly when the schema is found and compiles, and is built over the instance's own schema |
| `Wsdl.Wsdl.constructor` | rinse/wsdl.py:32-34 | construction stores the root and computes nothing |
| `Wsdl.Wsdl.Load` | rinse/wsdl.py:22-30 | loading parses the document and wraps it, passing parse errors on |
| `Wsdl.Wsdl.Schema` | rinse/wsdl.py:36-42 | every read of `schema` gives the first match, computed at most once and stored only on success |
| `Wsdl.Wsdl.XsdValidatorProperty` | rinse/wsdl.py:44-47 | `xsd_validator` is built once, from the cached schema, and stored only on success; the schema is cached whenever it is found, even when it does not compile |
| `Wsdl.Wsdl.IsValid` | rinse/wsdl.py:49-51 | the verdict is the validator's on the message body, never the envelope; a missing or non-element body raises TypeError; afterwards the schema and the validator are cached exactly when they can be built, and an existing validator is kept |
| `Wsdl.Wsdl.Validate` | rinse/wsdl.py:53-55 | passes exactly when the schema accepts the message body, TypeError for a missing or non-element body; the caches end up as after `is_valid` |
| `Response.BodyOf` | rinse/response.py:16-18 | the body is the first soapenv:Body child of a soapenv:Envelope root, and IndexError exactly when there is none |
| `Response.Create` | rinse/response.py:11-18 | parse errors and a missing Body raise; otherwise the response keeps the HTTP response, the parsed document and the Body |
| `Response.ToString` | rinse/response.py:20-22 | `str(response)` is the HTTP body decoded as UTF-8 and depends on nothing else of the response: neither the parsed document nor the Body; `Response.ToStringIsContent` states it for a created response |
| `Response.ToStringIsContent` | rinse/response.py:20-22 | `str()` is the HTTP body decoded as UTF-8, whatever was parsed from it |
| `Response.CreateOfEnvelope` | rinse/response.py:16-18 | a reply that parses to an envelope rinse builds yields that envelope's Body element, holding the body sent |
| `Rinse.SoapMessage.constructor` | rinse/__init__.py:64-77 | a new message has no bindings, no headers, the given body and exactly the Content-Type HTTP header |
| `Rinse.SoapMessage.GetItem` | rinse/__init__.py:79-81 | `msg[key]` reads the HTTP headers, raising KeyError for a missing key |
| `Rinse.SoapMessage.SetItem` | rinse/__init__.py:83-85 | `msg[key] = val` changes only that HTTP header |
| `Rinse.SoapMessage.DelItem` | rinse/__init__.py:87-89 | `del msg[key]` removes only that HTTP header, raising KeyError when it is missing |
| `Rinse.SoapMessage.Elementmaker` | rinse/__init__.py:91-107 | the same bind-once rule as rinse/message.py, caching lxml's own maker, which does not coerce ints |
| `Rinse.SoapMessage.Etree` | rinse/__init__.py:109-115 | binds soapenv, adding one new maker only when it was unbound, and returns Envelope(Header(*headers), Body(body)), or TypeError when there is no body |
| `Rinse.SoapMessage.Request` | rinse/__init__.py:121-128 | a POST to `url or self.url` carrying the envelope whose headers are the message's own dict, not a copy, and never gain SOAPAction; the maker cache changes as in `etree()`; TypeError when there is no body |

## Left out

- Serialisation: `tostring`, `__bytes__`, `__str__` of a message and the
  `pretty_print`/encoding options; a request's payload is the envelope tree
  that would be serialised.
- `printxml`: stdout printing and text wrapping.
- rinse/client.py and the `SoapClient` of rinse/__init__.py:263-301: HTTP
  sessions and network sends.
- Parsing (`safe_parse_string`, `safe_parse_path`, `safe_parse_url`),
  XPath over caller-chosen expressions, XML Schema compilation and
  validation, UTF-8 decoding and pprint's attribute rendering are parameters
  (fields of `Xml.Lxml`, or function arguments), not definitions.
- `element_as_tree` is the identity on the value tree: serialising an
  element and parsing it back gives an equal tree, detached from its parent.
- lxml's element identity: appending an element that already has a parent
  moves it in lxml; the model builds trees as values, so aliasing and moves
  are not captured.
- The namespace map an element maker passes to lxml (`nsmap=self._nsmap`)
  decides only where prefixes are declared in the serialised text, which is
  not modelled.
- `Util.ElementMaker.Call`: strings are assumed XML-compatible; lxml's
  ValueError for text or attribute values holding NUL or other control
  characters is not modelled.
- `Wsa.AppendWsaHeaders`: likewise for the addressing arguments.  With such a
  string the program sets SOAPAction, binds 'wsa' and then raises ValueError
  with nothing appended.  The model appends the headers.
- `Wsse.AppendWsseHeaders`: likewise for the username and password.  The
  program binds 'wsse' and then raises ValueError.
- Python's `bool` being an `int` (a True argument would be coerced to
  "True") and non-string arguments to the wsa and wsse composers.
- Adjacent text children are not merged as lxml merges them; comments and
  processing instructions are not part of the tree.
- `Util.CachedProperty.Get`: the wrapped function is modelled as
  deterministic (`() -> Result<T>`), so a second call returns what the first
  did.
- The process-wide `SCHEMA` instance and thread safety: the cache is an
  object the caller passes.
- `SchemaCache.get`'s `namespaces` argument is passed to XPath only and is
  folded into the `xpath` collaborator.
- The constants `URI_ANONYMOUS` and `URI_UNSPECIFIED` of rinse/wsa.py are
  declared but, as in the source, unused.
