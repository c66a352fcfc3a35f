/**
 * The key/value store's HTTP client (kv-store/ConsulClient.ts): it normalises
 * its destination once and, for each kind of key/value request, builds the
 * request descriptor it hands to the transport. The transport call itself is
 * not modelled: `Send` returns the descriptor that would be sent, or the error
 * the returned promise would reject with.
 */
module KvConsulClient {
  import opened Wrappers
  import opened JsValues
  import opened Text
  import opened Utils
  import opened ObjectUtils
  import Requests
  import Constants

  /** A client bound to one normalised base address. */
  datatype ConsulClient = ConsulClient(destination: string)

  /**
   * The constructor: the given address, or `DEFAULT_ADDRESS` when none is
   * given, with one edge slash trimmed from each end and `http://` prefixed
   * unless it already names `http:` or `https:`. `envAddress` is the value of
   * `CONSUL_ADDRESS` (empty when unset).
   */
  function NewConsulClient(dest: Option<string>, envAddress: string): (c: ConsulClient)
    ensures HasWebProtocol(c.destination)
    ensures dest.Some? && HasWebProtocol(dest.value) && !StartsWithSlash(dest.value) && !EndsWithSlash(dest.value)
      ==> c.destination == dest.value
    ensures dest.Some? && !HasWebProtocol(dest.value) && !StartsWithSlash(dest.value) && !EndsWithSlash(dest.value)
      ==> c.destination == "http://" + dest.value
    ensures dest.None? && envAddress == "" ==> c.destination == Constants.DefaultHost
    ensures dest.None? && envAddress != "" && !StartsWithSlash(envAddress) && !EndsWithSlash(envAddress)
      ==> c.destination == EnsureProtocol(envAddress)
  {
    var raw := match dest
      case Some(d) => d
      case None => Constants.DefaultAddress(envAddress);
    DefaultHostIsWebAddress();
    ConsulClient(EnsureProtocol(RemoveLeadingTrailingSlash(raw)))
  }

  /**
   * An address wrapped in at most one slash on each side, given directly or
   * through `CONSUL_ADDRESS`, is unwrapped to its core before `http://` is
   * prefixed where no protocol is named.
   */
  lemma NewConsulClientUnwraps(core: string, lead: bool, trail: bool, envAddress: string)
    requires !StartsWithSlash(core) && !EndsWithSlash(core)
    ensures var wrapped := (if lead then "/" else "") + core + (if trail then "/" else "");
      && NewConsulClient(Some(wrapped), envAddress).destination == EnsureProtocol(core)
      && (wrapped != "" ==> NewConsulClient(None, wrapped).destination == EnsureProtocol(core))
  {
    RemoveSlashesUnwraps(core, lead, trail);
  }

  /** `DEFAULT_HOST` already names `http:` and has no edge slash. */
  lemma DefaultHostIsWebAddress()
    ensures HasWebProtocol(Constants.DefaultHost)
    ensures !StartsWithSlash(Constants.DefaultHost) && !EndsWithSlash(Constants.DefaultHost)
  {
    assert Constants.DefaultHost == "http://" + "localhost:8500";
    HttpPrefixParses("localhost:8500");
  }

  /** The request URI: the destination, a slash, and the request's path. */
  function UriForRequest(client: ConsulClient, req: Value): string
    requires Readable(Prop(req, "key"))
  {
    client.destination + "/" + RequestToPath(req)
  }

  /**
   * With plain string parts and no subsection, the URI is
   * `destination/apiVersion/section/path`.
   */
  lemma UriLayout(client: ConsulClient, req: Value, api: string, section: string, path: string)
    requires Prop(req, "apiVersion") == Str(api) && Prop(req, "section") == Str(section)
    requires Prop(req, "subsection") == Undefined
    requires Prop(req, "key").Obj? && Prop(Prop(req, "key"), "path") == Str(path)
    requires api != [] && api[0] != '/' && path != [] && path[|path| - 1] != '/'
    ensures UriForRequest(client, req) == client.destination + "/" + (api + "/" + section + "/" + path)
  {
    RequestPathLayout(req, api, section, path);
  }

  /** The request kinds this client sends. */
  predicate IsKvRequestType(t: Value) {
    t == Str(Requests.GetRequestType) || t == Str(Requests.UpdateRequestType) || t == Str(Requests.DeleteRequestType)
  }

  /** The HTTP method each request kind is sent with. */
  function MethodFor(t: Value): string
    requires IsKvRequestType(t)
  {
    if t == Str(Requests.GetRequestType) then "GET"
    else if t == Str(Requests.UpdateRequestType) then "PUT"
    else "DELETE"
  }

  /** `req.key.dc` */
  function KeyDc(req: Value): Value
    requires Readable(Prop(req, "key"))
  {
    Prop(Prop(req, "key"), "dc")
  }

  /** The raw query map: `dc`, and `index` for a read. */
  function RawQuery(dcv: Value, index: Value, withIndex: bool): Value {
    if withIndex then Obj([Field("dc", dcv), Field("index", index)]) else Obj([Field("dc", dcv)])
  }

  /** The query map a request is sent with: `dc` always, `index` only for reads, then cleaned. */
  function QueryFor(req: Value, withIndex: bool, envDc: Option<string>): (qs: Value)
    requires Readable(Prop(req, "key"))
    ensures qs.Obj?
  {
    CleanedQuery(RawQuery(KeyDc(req), Prop(req, "index"), withIndex), envDc)
  }

  /** The raw read query `{dc, index}` as its fields read back. */
  lemma RawReadQuery(dcv: Value, index: Value)
    ensures var raw := RawQuery(dcv, index, true);
      && Keys(raw) == ["dc", "index"] && Prop(raw, "dc") == dcv && Prop(raw, "index") == index
  {
    var dcField, indexField := Field("dc", dcv), Field("index", index);
    PropCons(dcField, [indexField], "dc");
    PropCons(dcField, [indexField], "index");
    PropCons(indexField, [], "index");
  }

  /** The raw query once its `dc` is defaulted: the same names, `dc` defaulted, `index` as given. */
  lemma RawQueryDefaulted(dcv: Value, index: Value, withIndex: bool, envDc: Option<string>)
    ensures var raw := RawQuery(dcv, index, withIndex);
      var updated := SetProp(raw, "dc", DcDefault(raw, envDc));
      && Keys(updated) == (if withIndex then ["dc", "index"] else ["dc"])
      && Prop(updated, "dc") == DcOrEnv(dcv, envDc)
      && (withIndex ==> Prop(updated, "index") == index)
  {
    if withIndex {
      RawReadQuery(dcv, index);
    } else {
      PropCons(Field("dc", dcv), [], "dc");
    }
  }

  /** One name of the cleaned raw query: present exactly when kept, holding the value given. */
  lemma RawQueryEntry(dcv: Value, index: Value, withIndex: bool, envDc: Option<string>, k: string)
    ensures var qs, dc := CleanedQuery(RawQuery(dcv, index, withIndex), envDc), DcOrEnv(dcv, envDc);
      && (k in Keys(qs) <==> (k == "dc" && Kept(dc)) || (withIndex && k == "index" && Kept(index)))
      && (k in Keys(qs) ==> Prop(qs, k) == if k == "dc" then dc else index)
  {
    var raw := RawQuery(dcv, index, withIndex);
    var updated := SetProp(raw, "dc", DcDefault(raw, envDc));
    RawQueryDefaulted(dcv, index, withIndex, envDc);
    KeptEntriesMember(updated, Keys(updated), k);
    if k in Keys(CleanedQuery(raw, envDc)) {
      KeptEntriesProp(updated, Keys(updated), k);
    }
  }

  /**
   * The query string holds `dc` (the key's datacenter, else `CONSUL_DC`) when
   * that is kept, `index` only for a read and only when kept, and nothing else;
   * each entry holds the value it was given.
   */
  lemma QueryEntries(req: Value, withIndex: bool, envDc: Option<string>)
    requires Readable(Prop(req, "key"))
    ensures var qs, dc := QueryFor(req, withIndex, envDc), DcOrEnv(KeyDc(req), envDc);
      && (forall k :: k in Keys(qs) <==>
            (k == "dc" && Kept(dc)) || (withIndex && k == "index" && Kept(Prop(req, "index"))))
      && ("dc" in Keys(qs) ==> Prop(qs, "dc") == dc)
      && ("index" in Keys(qs) ==> Prop(qs, "index") == Prop(req, "index"))
  {
    var dcv, index := KeyDc(req), Prop(req, "index");
    forall k ensures k in Keys(QueryFor(req, withIndex, envDc)) <==>
        (k == "dc" && Kept(DcOrEnv(dcv, envDc))) || (withIndex && k == "index" && Kept(index)) {
      RawQueryEntry(dcv, index, withIndex, envDc, k);
    }
    RawQueryEntry(dcv, index, withIndex, envDc, "dc");
    RawQueryEntry(dcv, index, withIndex, envDc, "index");
  }

  /**
   * The shape of a descriptor: `uri`, then `body` for an update only, then
   * `method`, `headers` and `qs`.
   */
  function Layout(t: Value, uri: string, body: Value, verb: string, headers: Value, qs: Value): Value {
    if t == Str(Requests.UpdateRequestType) then
      Obj([Field("uri", Str(uri)), Field("body", body), Field("method", Str(verb)), Field("headers", headers), Field("qs", qs)])
    else
      Obj([Field("uri", Str(uri)), Field("method", Str(verb)), Field("headers", headers), Field("qs", qs)])
  }

  /** The names a descriptor may set. */
  const DescriptorKeys: seq<string> := ["uri", "body", "method", "headers", "qs"]

  /** Each entry of a descriptor reads back as given; `body` is set for an update only. */
  lemma LayoutEntries(t: Value, uri: string, body: Value, verb: string, headers: Value, qs: Value)
    ensures var d := Layout(t, uri, body, verb, headers, qs);
      && Prop(d, "uri") == Str(uri)
      && Prop(d, "method") == Str(verb)
      && Prop(d, "headers") == headers
      && Prop(d, "qs") == qs
      && Prop(d, "body") == (if t == Str(Requests.UpdateRequestType) then body else Undefined)
  {
    var u, v, h, q := Field("uri", Str(uri)), Field("method", Str(verb)), Field("headers", headers), Field("qs", qs);
    if t == Str(Requests.UpdateRequestType) {
      Literal5(u, Field("body", body), v, h, q);
    } else {
      Literal4(u, v, h, q);
      Literal4Absent(u, v, h, q, "body");
    }
  }

  /** A descriptor sets nothing but the five descriptor names. */
  lemma LayoutKeys(t: Value, uri: string, body: Value, verb: string, headers: Value, qs: Value, k: string)
    requires k !in DescriptorKeys
    ensures k !in Keys(Layout(t, uri, body, verb, headers, qs))
  {
    var u, v, h, q := Field("uri", Str(uri)), Field("method", Str(verb)), Field("headers", headers), Field("qs", qs);
    if t == Str(Requests.UpdateRequestType) {
      LiteralKeys([u, Field("body", body), v, h, q], k);
    } else {
      LiteralKeys([u, v, h, q], k);
    }
  }

  /** Laid over an options object, a descriptor's string `uri` and `method` replace the options'. */
  lemma MergedTarget(options: Value, d: Value, uri: string, verb: string)
    requires IsObject(options) && d.Obj? && Prop(d, "uri") == Str(uri) && Prop(d, "method") == Str(verb)
    ensures Prop(Merge(options, d), "uri") == Str(uri) && Prop(Merge(options, d), "method") == Str(verb)
  {
    MergePrimitiveWins(options, d, "uri");
    MergePrimitiveWins(options, d, "method");
  }

  /** A descriptor's `uri` and `method` override the options. */
  lemma MergedLayoutTarget(options: Value, t: Value, uri: string, body: Value, verb: string, headers: Value, qs: Value)
    requires IsObject(options)
    ensures var r := Merge(options, Layout(t, uri, body, verb, headers, qs));
      && Prop(r, "uri") == Str(uri)
      && Prop(r, "method") == Str(verb)
  {
    LayoutEntries(t, uri, body, verb, headers, qs);
    MergedTarget(options, Layout(t, uri, body, verb, headers, qs), uri, verb);
  }

  /** A descriptor's `body` and any name outside the five: only an update's string body replaces the option. */
  lemma MergedRest(options: Value, d: Value, isUpdate: bool, body: Value, k: string)
    requires IsObject(options) && d.Obj? && Prop(d, "body") == (if isUpdate then body else Undefined)
    requires k !in DescriptorKeys ==> k !in Keys(d)
    ensures var r := Merge(options, d);
      && (!isUpdate ==> Prop(r, "body") == Prop(options, "body"))
      && (isUpdate && body.Str? ==> Prop(r, "body") == body)
      && (k !in DescriptorKeys ==> Prop(r, k) == Prop(options, k))
  {
    if isUpdate {
      if body.Str? {
        MergePrimitiveWins(options, d, "body");
      }
    } else {
      MergeKeepsBase(options, d, "body");
    }
    if k !in DescriptorKeys {
      MergeKeepsBase(options, d, k);
    }
  }

  /** A descriptor keeps every option it does not name, and the `body` option unless it is an update with a string body. */
  lemma MergedLayoutRest(options: Value, t: Value, uri: string, body: Value, verb: string, headers: Value, qs: Value, k: string)
    requires IsObject(options)
    ensures var r := Merge(options, Layout(t, uri, body, verb, headers, qs));
      && (t != Str(Requests.UpdateRequestType) ==> Prop(r, "body") == Prop(options, "body"))
      && (t == Str(Requests.UpdateRequestType) && body.Str? ==> Prop(r, "body") == body)
      && (k !in DescriptorKeys ==> Prop(r, k) == Prop(options, k))
  {
    LayoutEntries(t, uri, body, verb, headers, qs);
    if k !in DescriptorKeys {
      LayoutKeys(t, uri, body, verb, headers, qs, k);
    }
    MergedRest(options, Layout(t, uri, body, verb, headers, qs), t == Str(Requests.UpdateRequestType), body, k);
  }

  /** The descriptor the client lays over the caller's options for one request. */
  function Descriptor(client: ConsulClient, req: Value, envDc: Option<string>): (d: Value)
    requires req.Obj? && Readable(Prop(req, "key")) && IsKvRequestType(Prop(req, "type"))
  {
    var t := Prop(req, "type");
    Layout(t, UriForRequest(client, req), Prop(req, "value"), MethodFor(t), HeadersForRequest(req),
           QueryFor(req, t == Str(Requests.GetRequestType), envDc))
  }

  /** What `String(req)` gives for a request object inside the rejection message. */
  const UnsupportedRequestMessage: string := "Unsupported request type: [object Object]"

  /**
   * `send`: the caller's options deep-merged with the request's descriptor, or
   * a rejection for a request of any other type. `envDc` is `CONSUL_DC`.
   */
  function Send(client: ConsulClient, req: Value, options: Value, envDc: Option<string>): (r: Result<Value, string>)
    requires req.Obj? && IsObject(options) && Readable(Prop(req, "key"))
    ensures r.Ok? <==> IsKvRequestType(Prop(req, "type"))
    ensures r.Err? ==> r.error == UnsupportedRequestMessage
    ensures r.Ok? ==> r.value.Obj?
  {
    if IsKvRequestType(Prop(req, "type")) then Ok(Merge(options, Descriptor(client, req, envDc)))
    else Err(UnsupportedRequestMessage)
  }

  /** The descriptor's own entries, read back by key; it sets `body` only for an update and no name outside the five. */
  lemma DescriptorEntries(client: ConsulClient, req: Value, envDc: Option<string>, k: string)
    requires req.Obj? && Readable(Prop(req, "key")) && IsKvRequestType(Prop(req, "type"))
    ensures var d, t := Descriptor(client, req, envDc), Prop(req, "type");
      && Prop(d, "uri") == Str(UriForRequest(client, req))
      && Prop(d, "method") == Str(MethodFor(t))
      && Prop(d, "headers") == HeadersForRequest(req)
      && Prop(d, "qs") == QueryFor(req, t == Str(Requests.GetRequestType), envDc)
      && Prop(d, "body") == (if t == Str(Requests.UpdateRequestType) then Prop(req, "value") else Undefined)
      && (k !in DescriptorKeys ==> k !in Keys(d))
  {
    var t := Prop(req, "type");
    var uri, headers, qs := UriForRequest(client, req), HeadersForRequest(req), QueryFor(req, t == Str(Requests.GetRequestType), envDc);
    LayoutEntries(t, uri, Prop(req, "value"), MethodFor(t), headers, qs);
    if k !in DescriptorKeys {
      LayoutKeys(t, uri, Prop(req, "value"), MethodFor(t), headers, qs, k);
    }
  }

  /** The client's `uri` and `method` always override whatever the options say. */
  lemma SendSetsUriAndMethod(client: ConsulClient, req: Value, options: Value, envDc: Option<string>)
    requires req.Obj? && IsObject(options) && Readable(Prop(req, "key")) && IsKvRequestType(Prop(req, "type"))
    ensures var r := Send(client, req, options, envDc);
      && r.Ok?
      && Prop(r.value, "uri") == Str(UriForRequest(client, req))
      && Prop(r.value, "method") == Str(MethodFor(Prop(req, "type")))
  {
    var t := Prop(req, "type");
    MergedLayoutTarget(options, t, UriForRequest(client, req), Prop(req, "value"), MethodFor(t), HeadersForRequest(req),
                       QueryFor(req, t == Str(Requests.GetRequestType), envDc));
  }

  /**
   * Headers and query string: the client's map replaces a non-object option
   * and is deep-merged over an object one, so the client's entries win.
   */
  lemma SendHeadersAndQuery(client: ConsulClient, req: Value, options: Value, envDc: Option<string>)
    requires req.Obj? && IsObject(options) && Readable(Prop(req, "key")) && IsKvRequestType(Prop(req, "type"))
    ensures var r, h, q := Send(client, req, options, envDc), HeadersForRequest(req),
              QueryFor(req, Prop(req, "type") == Str(Requests.GetRequestType), envDc);
      && r.Ok?
      && Prop(r.value, "headers") == (if IsObject(Prop(options, "headers")) then Merge(Prop(options, "headers"), h) else h)
      && Prop(r.value, "qs") == (if IsObject(Prop(options, "qs")) then Merge(Prop(options, "qs"), q) else q)
  {
    var d := Descriptor(client, req, envDc);
    DescriptorEntries(client, req, envDc, "uri");
    MergeObjectEntry(options, d, "headers");
    MergeObjectEntry(options, d, "qs");
  }

  /**
   * An update sends the request's string value as the body; reads and deletes
   * leave the caller's `body` option as it was. Every option the descriptor
   * does not name passes through unchanged.
   */
  lemma SendKeepsOtherOptions(client: ConsulClient, req: Value, options: Value, envDc: Option<string>, k: string)
    requires req.Obj? && IsObject(options) && Readable(Prop(req, "key")) && IsKvRequestType(Prop(req, "type"))
    ensures var r := Send(client, req, options, envDc);
      && r.Ok?
      && (k !in DescriptorKeys ==> Prop(r.value, k) == Prop(options, k))
      && (Prop(req, "type") != Str(Requests.UpdateRequestType) ==> Prop(r.value, "body") == Prop(options, "body"))
      && (Prop(req, "type") == Str(Requests.UpdateRequestType) && Prop(req, "value").Str? ==>
            Prop(r.value, "body") == Prop(req, "value"))
  {
    var t := Prop(req, "type");
    MergedLayoutRest(options, t, UriForRequest(client, req), Prop(req, "value"), MethodFor(t), HeadersForRequest(req),
                     QueryFor(req, t == Str(Requests.GetRequestType), envDc), k);
  }
}
