/**
 * rinse/util.py: the SOAP namespace constants, the element maker that turns
 * integer children into text, the schema cache and its identifier
 * resolution, the element-maker cache, `recursive_dict` and
 * `cached_property`.
 */
module Util {
  import opened Base
  import opened Xml

  const NS_SOAPENV: string := "http://schemas.xmlsoap.org/soap/envelope/"
  const NS_MAP: map<string, string> := map["soapenv" := NS_SOAPENV]
  /** Name of the bundled SOAP 1.1 envelope schema under the package's res/ directory. */
  const ENVELOPE_XSD: string := "soap-1.1_envelope.xsd"

  // ---------------------------------------------------------------------
  // str(int): the decimal text Python gives an integer

  predicate IsDigit(c: char) { '0' <= c <= '9' }

  predicate AllDigits(s: string) { forall k :: 0 <= k < |s| ==> IsDigit(s[k]) }

  function DigitChar(d: nat): (c: char)
    requires d < 10
    ensures IsDigit(c) && c as int - '0' as int == d
  {
    (d + '0' as int) as char
  }

  function NatToString(n: nat): (s: string)
    decreases n
  {
    if n < 10 then [DigitChar(n)] else NatToString(n / 10) + [DigitChar(n % 10)]
  }

  /** Python's `str(i)` for an int: optional minus sign, then decimal digits without leading zeros. */
  function IntToString(i: int): string
  {
    if i < 0 then "-" + NatToString(-i) else NatToString(i)
  }

  /** The value of a string of decimal digits. */
  function DigitsValue(s: string): nat
    requires AllDigits(s)
  {
    if s == [] then 0 else 10 * DigitsValue(s[..|s| - 1]) + (s[|s| - 1] as int - '0' as int)
  }

  /** Python's `int(s)` restricted to the forms `str` produces: `-`? digit+. */
  function ParseInt(s: string): Option<int>
  {
    if |s| > 1 && s[0] == '-' && AllDigits(s[1..]) then Some(-(DigitsValue(s[1..]) as int))
    else if |s| > 0 && AllDigits(s) then Some(DigitsValue(s))
    else None
  }

  lemma {:induction false} NatToStringDigits(n: nat)
    ensures var s := NatToString(n);
      |s| > 0 && AllDigits(s) && DigitsValue(s) == n && (s[0] == '0' ==> n == 0)
    decreases n
  {
    if n >= 10 {
      NatToStringDigits(n / 10);
      var s := NatToString(n);
      assert s[..|s| - 1] == NatToString(n / 10);
    }
  }

  /** `int(str(i)) == i`: the coercion loses nothing. */
  lemma IntToStringRoundTrip(i: int)
    ensures ParseInt(IntToString(i)) == Some(i)
  {
    if i < 0 {
      NatToStringDigits(-i);
      assert IntToString(i)[1..] == NatToString(-i);
    } else {
      NatToStringDigits(i);
    }
  }

  // ---------------------------------------------------------------------
  // rinse.util.ElementMaker: lxml's maker with int positional arguments cast to str

  /** A positional argument of an element-maker call; `NoneArg` is Python's None. */
  datatype Arg = StrArg(s: string) | IntArg(i: int) | NodeArg(n: Node) | NoneArg

  function CoerceArg(a: Arg): Arg
  {
    if a.IntArg? then StrArg(IntToString(a.i)) else a
  }

  /** The wrapper's list comprehension: every int argument becomes its `str`, in place. */
  function CoerceArgs(args: seq<Arg>): (r: seq<Arg>)
    ensures |r| == |args|
    ensures forall k :: 0 <= k < |r| ==> !r[k].IntArg?
    ensures forall k :: 0 <= k < |r| && !args[k].IntArg? ==> r[k] == args[k]
    ensures forall k :: 0 <= k < |r| && args[k].IntArg? ==>
      r[k].StrArg? && ParseInt(r[k].s) == Some(args[k].i)
  {
    var r := seq(|args|, k requires 0 <= k < |args| => CoerceArg(args[k]));
    assert forall k :: 0 <= k < |r| && args[k].IntArg? ==> ParseInt(r[k].s) == Some(args[k].i) by {
      forall k | 0 <= k < |r| && args[k].IntArg? ensures ParseInt(r[k].s) == Some(args[k].i) {
        IntToStringRoundTrip(args[k].i);
      }
    }
    r
  }

  /** The child lxml appends for an accepted argument. */
  function Content(a: Arg): Node
    requires !a.IntArg? && !a.NoneArg?
  {
    if a.StrArg? then Text(a.s) else a.n
  }

  /**
   * A namespace-bound element maker.  `coercesInts` tells rinse's wrapper
   * (rinse/util.py) from lxml's own maker, which rejects an int child with
   * TypeError.  Neither has a type handler for None, so a None child raises
   * TypeError through both.
   */
  class ElementMaker {
    const namespace: string
    const coercesInts: bool

    constructor (namespace: string, coercesInts: bool)
      ensures this.namespace == namespace && this.coercesInts == coercesInts
    {
      this.namespace := namespace;
      this.coercesInts := coercesInts;
    }

    /** `maker.<local>(*args, **attrs)`. */
    function Call(local: string, args: seq<Arg>, attrs: map<string, string>): (r: Result<Node>)
      ensures r.Ok? <==>
        (coercesInts || forall k :: 0 <= k < |args| ==> !args[k].IntArg?)
        && forall k :: 0 <= k < |args| ==> !args[k].NoneArg?
      ensures r.Err? ==> r.error == TypeError
      ensures r.Ok? ==>
        (r.value.Elem? && r.value.ns == namespace && r.value.local == local
         && r.value.attrs == attrs && |r.value.children| == |args|)
      ensures r.Ok? ==> forall k :: 0 <= k < |args| ==>
        r.value.children[k] == Content(if coercesInts then CoerceArg(args[k]) else args[k])
    {
      var passed := if coercesInts then CoerceArgs(args) else args;
      assert forall k :: 0 <= k < |args| ==> (passed[k].NoneArg? <==> args[k].NoneArg?);
      if exists k :: 0 <= k < |passed| && (passed[k].IntArg? || passed[k].NoneArg?) then Err(TypeError)
      else Ok(Elem(namespace, local, attrs, seq(|passed|, k requires 0 <= k < |passed| => Content(passed[k]))))
    }
  }

  // ---------------------------------------------------------------------
  // SchemaCache: identifier resolution, keying and compilation

  predicate IsAbsolute(s: string) { |s| > 0 && s[0] == '/' }

  /** `os.path.join(a, b)` on POSIX. */
  function PathJoin(a: string, b: string): (r: string)
    ensures IsAbsolute(b) ==> r == b
    ensures !IsAbsolute(b) ==> |r| >= |a| + |b| && r[..|a|] == a && r[|r| - |b|..] == b
    ensures !IsAbsolute(b) && a != "" && a[|a| - 1] != '/' ==> |r| > |a| && r[|a|] == '/'
    ensures !IsAbsolute(b) ==> |r| == |a| + |b| + (if a != "" && a[|a| - 1] != '/' then 1 else 0)
  {
    if IsAbsolute(b) then b
    else if a == "" || a[|a| - 1] == '/' then a + b
    else a + "/" + b
  }

  /** The name a schema identifier is loaded from and cached under. */
  function Resolve(rinseDir: string, xsd: string): (r: string)
    ensures IsAbsolute(xsd) || ':' in xsd ==> r == xsd
    ensures !IsAbsolute(xsd) && ':' !in xsd ==> |r| > |xsd| && r[|r| - |xsd|..] == xsd
  {
    if IsAbsolute(xsd) then xsd             // absolute path
    else if ':' in xsd then xsd             // URL
    else PathJoin(PathJoin(rinseDir, "res"), xsd)
  }

  /**
   * Resolution leaves an identifier alone exactly when it is an absolute
   * path or a URL; a bare name ends up under RINSE_DIR/res.
   */
  lemma ResolveKeepsExactlyPathsAndUrls(rinseDir: string, xsd: string)
    ensures Resolve(rinseDir, xsd) == xsd <==> IsAbsolute(xsd) || ':' in xsd
    ensures !IsAbsolute(xsd) && ':' !in xsd ==>
      var r, dir := Resolve(rinseDir, xsd), PathJoin(rinseDir, "res");
      r[..|rinseDir|] == rinseDir && r[..|dir|] == dir && dir[|dir| - 3..] == "res"
      && |r| > |dir| && r[|dir|] == '/' && r[|r| - |xsd|..] == xsd
      && |r| == |dir| + 1 + |xsd|
  {
    if !IsAbsolute(xsd) && ':' !in xsd {
      assert |PathJoin(rinseDir, "res")| >= 3;
    }
  }

  /** With the package installed under an absolute directory, resolving twice changes nothing. */
  lemma ResolveIdempotent(rinseDir: string, xsd: string)
    requires IsAbsolute(rinseDir)
    ensures Resolve(rinseDir, Resolve(rinseDir, xsd)) == Resolve(rinseDir, xsd)
  {
    if !IsAbsolute(xsd) && ':' !in xsd {
      var res := PathJoin(rinseDir, "res");
      assert res[0] == '/';
      assert PathJoin(res, xsd)[0] == '/';
    }
  }

  /** A compiled `etree.XMLSchema`, known by the schema document it was compiled from. */
  datatype XmlSchema = XmlSchema(root: Node)

  /** Parse the resolved location, take the first xpath match if asked, compile. */
  function LoadSchema(lx: Lxml, location: string, xpath: Option<string>): (r: Result<XmlSchema>)
    ensures r.Ok? ==> lx.compiles(r.value.root) && lx.parsePath(location).Ok?
    ensures r.Ok? && !Truthy(xpath) ==> r.value.root == lx.parsePath(location).value
    ensures r.Ok? && Truthy(xpath) ==>
      var found := lx.xpath(lx.parsePath(location).value, xpath.value);
      found != [] && r.value.root == found[0]
    ensures lx.parsePath(location).Err? ==> r == Err(lx.parsePath(location).error)
    ensures (lx.parsePath(location).Ok? && Truthy(xpath)
             && lx.xpath(lx.parsePath(location).value, xpath.value) == []) ==> r == Err(IndexError)
    ensures lx.parsePath(location).Ok? && !Truthy(xpath) ==>
      (r.Ok? <==> lx.compiles(lx.parsePath(location).value))
    ensures lx.parsePath(location).Ok? && Truthy(xpath)
            && lx.xpath(lx.parsePath(location).value, xpath.value) != [] ==>
      (r.Ok? <==> lx.compiles(lx.xpath(lx.parsePath(location).value, xpath.value)[0]))
    ensures r.Err? && lx.parsePath(location).Ok?
            && !(Truthy(xpath) && lx.xpath(lx.parsePath(location).value, xpath.value) == []) ==>
      r.error == SchemaParseError
  {
    var doc :- lx.parsePath(location);
    var root :- if Truthy(xpath) then
                  var found := lx.xpath(doc, xpath.value);
                  if found == [] then Err(IndexError) else Ok(found[0])
                else Ok(doc);
    if lx.compiles(root) then Ok(XmlSchema(root)) else Err(SchemaParseError)
  }

  /**
   * The process-wide schema cache (a dict subclass).  `Get` shadows dict.get:
   * it never consults the cache; a missing subscript falls back to it.
   */
  class SchemaCache {
    const rinseDir: string
    var entries: map<string, XmlSchema>

    constructor (rinseDir: string)
      ensures this.rinseDir == rinseDir && entries == map[]
    {
      this.rinseDir := rinseDir;
      entries := map[];
    }

    /** `SchemaCache.get(xsd, xpath)`: always loads and compiles; stores under the resolved name. */
    method Get(lx: Lxml, xsd: string, xpath: Option<string>) returns (r: Result<XmlSchema>)
      modifies this
      ensures r == LoadSchema(lx, Resolve(rinseDir, xsd), xpath)
      ensures entries == if r.Ok? then old(entries)[Resolve(rinseDir, xsd) := r.value] else old(entries)
    {
      var location := xsd;
      if IsAbsolute(xsd) {
        // absolute path
      } else if ':' in xsd {
        // URL
      } else {
        location := PathJoin(PathJoin(rinseDir, "res"), xsd);
      }
      r := LoadSchema(lx, location, xpath);
      if r.Ok? {
        entries := entries[location := r.value];
      }
    }

    /** `cache[xsd]`: a hit returns the stored schema; a miss goes through `Get` without xpath. */
    method Lookup(lx: Lxml, xsd: string) returns (r: Result<XmlSchema>)
      modifies this
      ensures xsd in old(entries) ==> r == Ok(old(entries)[xsd]) && entries == old(entries)
      ensures xsd !in old(entries) ==> r == LoadSchema(lx, Resolve(rinseDir, xsd), None)
      ensures xsd !in old(entries) ==>
        entries == if r.Ok? then old(entries)[Resolve(rinseDir, xsd) := r.value] else old(entries)
    {
      if xsd in entries {
        r := Ok(entries[xsd]);
      } else {
        r := Get(lx, xsd, None);
      }
    }
  }

  /**
   * Keying: after a miss on `xsd` is filled, `xsd` itself is a hit exactly
   * when it is an absolute path or a URL; a bare resource name stays missing
   * (the entry went under its resolved path instead).
   */
  lemma MissFillsKeyIffPathOrUrl(rinseDir: string, entries: map<string, XmlSchema>, xsd: string, s: XmlSchema)
    requires xsd !in entries
    ensures xsd in entries[Resolve(rinseDir, xsd) := s] <==> IsAbsolute(xsd) || ':' in xsd
  {
    ResolveKeepsExactlyPathsAndUrls(rinseDir, xsd);
  }

  // ---------------------------------------------------------------------
  // ElementMakerCache

  /** The cache's namespace map: the SOAP envelope binding overlaid with the caller's map. */
  function MergeNsMap(callerMap: map<string, string>): (r: map<string, string>)
    ensures r.Keys == NS_MAP.Keys + callerMap.Keys
    ensures forall p :: p in callerMap ==> r[p] == callerMap[p]
    ensures forall p :: p in NS_MAP && p !in callerMap ==> r[p] == NS_MAP[p]
  {
    map p | p in NS_MAP.Keys + callerMap.Keys :: if p in callerMap then callerMap[p] else NS_MAP[p]
  }

  /**
   * A dict of element makers per prefix whose `__missing__` builds a maker
   * without storing it.  `coercesInts` is true for util.py's copy (rinse's
   * maker) and false for rinse/__init__.py's (lxml's maker).
   */
  class ElementMakerCache {
    const nsmap: map<string, string>
    const coercesInts: bool
    var entries: map<string, ElementMaker>

    constructor (callerMap: map<string, string>, coercesInts: bool)
      ensures nsmap == MergeNsMap(callerMap) && this.coercesInts == coercesInts && entries == map[]
    {
      nsmap := MergeNsMap(callerMap);
      this.coercesInts := coercesInts;
      entries := map[];
    }

    /** `cache[prefix]`. */
    method Lookup(prefix: string) returns (r: Result<ElementMaker>)
      ensures prefix in entries ==> r == Ok(entries[prefix])
      ensures prefix !in entries && prefix !in nsmap ==> r == Err(KeyError(prefix))
      ensures prefix !in entries && prefix in nsmap ==>
        r.Ok? && fresh(r.value) && r.value.namespace == nsmap[prefix] && r.value.coercesInts == coercesInts
    {
      if prefix in entries {
        r := Ok(entries[prefix]);
      } else if prefix !in nsmap {
        r := Err(KeyError(prefix));
      } else {
        var m := new ElementMaker(nsmap[prefix], coercesInts);
        r := Ok(m);
      }
    }
  }

  // ---------------------------------------------------------------------
  // recursive_dict

  /** What `recursive_dict` accepts: an element (or any other node), or a list/tuple of such. */
  datatype Shape = One(node: Node) | Many(items: seq<Shape>)

  /** The second half of an element's pair: the dict of its children's pairs, or its text. */
  datatype Value = Dict(entries: map<string, Value>) | TextValue(text: Option<string>)

  datatype Mapped = Pair(key: string, value: Value) | Tuple(items: seq<Mapped>)

  /** `dict(pairs)`: a later pair with an equal key overwrites an earlier one. */
  function DictOf<V>(pairs: seq<(string, V)>): map<string, V>
  {
    if pairs == [] then map[]
    else DictOf(pairs[..|pairs| - 1])[pairs[|pairs| - 1].0 := pairs[|pairs| - 1].1]
  }

  lemma {:induction false} DictOfLastWins<V>(pairs: seq<(string, V)>, k: string)
    ensures k in DictOf(pairs) <==> exists i :: 0 <= i < |pairs| && pairs[i].0 == k
    ensures k in DictOf(pairs) ==>
      exists i :: (0 <= i < |pairs| && pairs[i].0 == k
        && DictOf(pairs)[k] == pairs[i].1 && forall j :: i < j < |pairs| ==> pairs[j].0 != k)
  {
    if pairs != [] {
      var init := pairs[..|pairs| - 1];
      DictOfLastWins(init, k);
      assert forall i :: 0 <= i < |init| ==> init[i] == pairs[i];
      if pairs[|pairs| - 1].0 != k && k in DictOf(init) {
        var i :| 0 <= i < |init| && init[i].0 == k && DictOf(init)[k] == init[i].1
          && forall j :: i < j < |init| ==> init[j].0 != k;
        assert forall j :: i < j < |pairs| ==> pairs[j].0 != k;
      }
    }
  }

  /** The first half of an element's pair: its tag followed by the rendering of its attributes. */
  function Key(n: Node, render: map<string, string> -> string): string
    requires n.Elem?
  {
    Tag(n.ns, n.local) + render(n.attrs)
  }

  /** `dict(map(recursive_dict, element)) or element.text`. */
  function ElementValue(n: Node, render: map<string, string> -> string): (r: Value)
    requires n.Elem?
    ensures r.Dict? <==> ElementsOf(n.children) != []
    ensures r.TextValue? ==> r.text == LeadingText(n.children)
    decreases n, 1
  {
    if ElementsOf(n.children) == [] then TextValue(LeadingText(n.children))
    else
      var pairs := ChildPairs(n, render);
      assert pairs[0].0 in DictOf(pairs) by { DictOfLastWins(pairs, pairs[0].0); }
      Dict(DictOf(pairs))
  }

  /** The pairs `recursive_dict` gives an element's element children, in order. */
  function ChildPairs(n: Node, render: map<string, string> -> string): (pairs: seq<(string, Value)>)
    requires n.Elem?
    ensures var kids := ElementsOf(n.children);
      |pairs| == |kids| && forall i :: 0 <= i < |kids| ==> kids[i].Elem? && pairs[i].0 == Key(kids[i], render)
    decreases n, 0
  {
    var kids := ElementsOf(n.children);
    seq(|kids|, i requires 0 <= i < |kids| =>
      assert kids[i] in n.children;
      (Key(kids[i], render), ElementValue(kids[i], render)))
  }

  /**
   * `dict(zip(keys, values))`: the last-wins rule of `DictOfLastWins`,
   * stated over the keys and values the pairs were zipped from.
   */
  lemma DictOfZipped<V>(pairs: seq<(string, V)>, keys: seq<string>, vals: seq<V>, k: string)
    requires |pairs| == |keys| == |vals|
    requires forall i :: 0 <= i < |pairs| ==> pairs[i] == (keys[i], vals[i])
    ensures k in DictOf(pairs) <==> exists i :: 0 <= i < |keys| && keys[i] == k
    ensures k in DictOf(pairs) ==>
      exists i :: (0 <= i < |keys| && keys[i] == k
        && DictOf(pairs)[k] == vals[i] && forall j :: i < j < |keys| ==> keys[j] != k)
  {
    DictOfLastWins(pairs, k);
    if exists i :: 0 <= i < |keys| && keys[i] == k {
      var i :| 0 <= i < |keys| && keys[i] == k;
      assert pairs[i].0 == k;
    }
    if k in DictOf(pairs) {
      var i :| 0 <= i < |pairs| && pairs[i].0 == k && DictOf(pairs)[k] == pairs[i].1
        && forall j :: i < j < |pairs| ==> pairs[j].0 != k;
      assert forall j :: i < j < |keys| ==> keys[j] == pairs[j].0;
    }
  }

  /**
   * The dict of an element with element children holds one entry per
   * distinct child key, taken from the last child with that key.
   */
  lemma ElementValueLastWins(n: Node, render: map<string, string> -> string, k: string)
    requires n.Elem? && ElementsOf(n.children) != []
    ensures var kids := ElementsOf(n.children);
      var d := ElementValue(n, render).entries;
      (k in d <==> exists i :: 0 <= i < |kids| && Key(kids[i], render) == k)
      && (k in d ==>
            exists i :: (0 <= i < |kids| && Key(kids[i], render) == k
              && d[k] == ElementValue(kids[i], render)
              && forall j :: i < j < |kids| ==> Key(kids[j], render) != k))
  {
    var kids := ElementsOf(n.children);
    var pairs := ChildPairs(n, render);
    ElementValueIsDictOf(n, render);
    var keys := seq(|kids|, i requires 0 <= i < |kids| => Key(kids[i], render));
    var vals := seq(|kids|, i requires 0 <= i < |kids| => ElementValue(kids[i], render));
    ChildPairsZipped(n, render, keys, vals);
    DictOfZipped(pairs, keys, vals, k);
  }

  /** An element with element children has as its value the dict of its children's pairs. */
  lemma ElementValueIsDictOf(n: Node, render: map<string, string> -> string)
    requires n.Elem? && ElementsOf(n.children) != []
    ensures ElementValue(n, render).entries == DictOf(ChildPairs(n, render))
  {
  }

  /** An element's pairs are its children's keys zipped with their values. */
  lemma ChildPairsZipped(n: Node, render: map<string, string> -> string, keys: seq<string>, vals: seq<Value>)
    requires n.Elem?
    requires var kids := ElementsOf(n.children);
      |keys| == |vals| == |kids| && forall i :: 0 <= i < |kids| ==>
        kids[i].Elem? && keys[i] == Key(kids[i], render) && vals[i] == ElementValue(kids[i], render)
    ensures var pairs := ChildPairs(n, render);
      |pairs| == |keys| && forall i :: 0 <= i < |pairs| ==> pairs[i] == (keys[i], vals[i])
  {
  }

  /** The first failure among `rs`, or all their values. */
  function AllOk<T>(rs: seq<Result<T>>): (r: Result<seq<T>>)
    ensures r.Ok? <==> forall i :: 0 <= i < |rs| ==> rs[i].Ok?
    ensures r.Ok? ==> |r.value| == |rs| && forall i :: 0 <= i < |rs| ==> r.value[i] == rs[i].value
  {
    if rs == [] then Ok([])
    else
      var h :- rs[0];
      var t :- AllOk(rs[1..]);
      Ok([h] + t)
  }

  /**
   * `recursive_dict(element)`: a list or tuple maps elementwise to a tuple, an
   * element to its pair; anything else has no `tag` and raises AttributeError.
   */
  function RecursiveDict(s: Shape, render: map<string, string> -> string): (r: Result<Mapped>)
    ensures s.One? ==> (r.Ok? <==> s.node.Elem?)
    ensures s.One? && r.Ok? ==>
      (r.value.Pair? && r.value.key == Key(s.node, render) && r.value.value == ElementValue(s.node, render))
    ensures s.Many? && r.Ok? ==> r.value.Tuple? && |r.value.items| == |s.items|
    ensures s.Many? && r.Ok? ==> forall i :: 0 <= i < |s.items| ==>
      RecursiveDict(s.items[i], render) == Ok(r.value.items[i])
    ensures s.Many? ==> (r.Ok? <==> forall i :: 0 <= i < |s.items| ==> RecursiveDict(s.items[i], render).Ok?)
    decreases s
  {
    match s
    case One(n) =>
      if n.Elem? then Ok(Pair(Key(n, render), ElementValue(n, render))) else Err(AttributeError("tag"))
    case Many(items) =>
      var rs := seq(|items|, i requires 0 <= i < |items| => RecursiveDict(items[i], render));
      var all :- AllOk(rs);
      Ok(Tuple(all))
  }

  // ---------------------------------------------------------------------
  // cached_property

  /** What reading the descriptor yields. */
  datatype Got<T> = Descriptor | Value(value: T) | Thrown(error: Error)

  /** An instance's `__dict__`, restricted to the values one property stores. */
  class InstanceDict<T> {
    var entries: map<string, T>

    constructor ()
      ensures entries == map[]
    {
      entries := map[];
    }
  }

  /**
   * A `cached_property` descriptor over one function.  `func` is the wrapped
   * function applied to the instance being read; `calls` counts its
   * evaluations.
   */
  class CachedProperty<T> {
    const name: string
    const func: () -> Result<T>
    var calls: nat

    constructor (name: string, func: () -> Result<T>)
      ensures this.name == name && this.func == func && calls == 0
    {
      this.name := name;
      this.func := func;
      calls := 0;
    }

    /** `__get__(instance, owner)`; a null instance is access through the class. */
    method Get(instance: InstanceDict?<T>) returns (g: Got<T>)
      modifies this, instance
      ensures instance == null ==> g == Descriptor && calls == old(calls)
      ensures instance != null ==> calls == old(calls) + 1
      ensures instance != null && func().Ok? ==>
        g == Value(func().value) && instance.entries == old(instance.entries)[name := func().value]
      ensures instance != null && func().Err? ==>
        g == Thrown(func().error) && instance.entries == old(instance.entries)
    {
      if instance == null {
        return Descriptor;
      }
      calls := calls + 1;
      var result := func();
      if result.Err? {
        return Thrown(result.error);
      }
      instance.entries := instance.entries[name := result.value];
      g := Value(result.value);
    }

    /**
     * Attribute access `instance.<name>`: the descriptor has no `__set__`, so
     * a value already in the instance dict wins and `func` is not called.
     */
    method Read(instance: InstanceDict<T>) returns (g: Got<T>)
      modifies this, instance
      ensures name in old(instance.entries) ==>
        g == Value(old(instance.entries)[name]) && calls == old(calls)
        && instance.entries == old(instance.entries)
      ensures name !in old(instance.entries) ==> calls == old(calls) + 1
      ensures name !in old(instance.entries) && func().Ok? ==>
        g == Value(func().value) && instance.entries == old(instance.entries)[name := func().value]
      ensures name !in old(instance.entries) && func().Err? ==>
        g == Thrown(func().error) && instance.entries == old(instance.entries)
    {
      if name in instance.entries {
        g := Value(instance.entries[name]);
      } else {
        g := Get(instance);
      }
    }
  }

  /** Two reads in a row evaluate the function at most once, and agree once it has succeeded. */
  method ReadTwice<T>(p: CachedProperty<T>, instance: InstanceDict<T>) returns (first: Got<T>, second: Got<T>)
    modifies p, instance
    ensures first.Value? ==> second == first && p.calls <= old(p.calls) + 1
    ensures first.Thrown? ==> second == first && p.calls == old(p.calls) + 2
  {
    first := p.Read(instance);
    second := p.Read(instance);
  }
}
