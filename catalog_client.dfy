/**
 * The catalog's HTTP client (catalog/ConsulClient.ts): it trims its
 * destination once and, for each supported catalog request, builds the request
 * descriptor it hands to the transport. Unlike the key/value client it neither
 * adds a protocol nor sends a query string, and its only header is `host`.
 * The transport call is not modelled: `Send` returns the descriptor that would
 * be sent, or the error the returned promise would reject with.
 */
module CatalogConsulClient {
  import opened Wrappers
  import opened JsValues
  import opened Utils
  import opened ObjectUtils
  import Constants
  import KvConsulClient

  /** The catalog request kinds (`CatalogRequestType`). */
  const ListNodesRequestType: string := "ListNodesRequest"
  const ListDatacentersRequestType: string := "ListDatacentersRequest"
  const ListServicesRequestType: string := "ListServicesRequest"
  const ListServiceNodesRequestType: string := "ListServiceNodesRequest"
  const ListNodeServicesRequestType: string := "ListNodeServicesRequest"
  const RegisterEntityRequestType: string := "RegisterEntityRequest"
  const DeregisterEntityRequestType: string := "DeregisterEntityRequest"

  /** A client bound to one base address. */
  datatype CatalogClient = CatalogClient(destination: string)

  /**
   * The constructor: the given address, or `DEFAULT_ADDRESS` when none is
   * given, with one edge slash trimmed from each end; no protocol is added.
   * `envAddress` is the value of `CONSUL_ADDRESS` (empty when unset).
   */
  function NewCatalogClient(dest: Option<string>, envAddress: string): (c: CatalogClient)
    ensures dest.Some? && !StartsWithSlash(dest.value) && !EndsWithSlash(dest.value) ==> c.destination == dest.value
    ensures dest.Some? ==> |dest.value| - 2 <= |c.destination| <= |dest.value|
    ensures dest.None? && envAddress == "" ==> c.destination == Constants.DefaultHost
    ensures dest.None? && envAddress != "" && !StartsWithSlash(envAddress) && !EndsWithSlash(envAddress)
      ==> c.destination == envAddress
  {
    match dest
    case Some(d) => CatalogClient(RemoveLeadingTrailingSlash(d))
    case None =>
      KvConsulClient.DefaultHostIsWebAddress();
      CatalogClient(RemoveLeadingTrailingSlash(Constants.DefaultAddress(envAddress)))
  }

  /**
   * An address wrapped in at most one slash on each side, given directly or
   * through `CONSUL_ADDRESS`, is unwrapped to its core.
   */
  lemma NewClientUnwraps(core: string, lead: bool, trail: bool, envAddress: string)
    requires !StartsWithSlash(core) && !EndsWithSlash(core)
    ensures var wrapped := (if lead then "/" else "") + core + (if trail then "/" else "");
      && NewCatalogClient(Some(wrapped), envAddress).destination == core
      && (wrapped != "" ==> NewCatalogClient(None, wrapped).destination == core)
  {
    RemoveSlashesUnwraps(core, lead, trail);
  }

  /** `getPathForRequest`: the destination, then the API version and the section. */
  function PathForRequest(client: CatalogClient, req: Value): string {
    client.destination + "/" + TemplateString(Prop(req, "apiVersion")) + "/" + TemplateString(Prop(req, "section"))
  }

  /** The request kinds this client sends. */
  predicate IsSupported(t: Value) {
    t == Str(RegisterEntityRequestType) || t == Str(ListNodesRequestType)
    || t == Str(ListServicesRequestType) || t == Str(ListServiceNodesRequestType)
  }

  /** What each supported kind appends to the request's path. */
  function Endpoint(req: Value): string
    requires IsSupported(Prop(req, "type"))
  {
    var t := Prop(req, "type");
    if t == Str(RegisterEntityRequestType) then "/register"
    else if t == Str(ListNodesRequestType) then "/nodes"
    else if t == Str(ListServicesRequestType) then "/services"
    else "/service/" + TemplateString(Prop(req, "serviceName"))
  }

  /** The HTTP method: `PUT` to register, `GET` to list. */
  function MethodFor(t: Value): string
    requires IsSupported(t)
  {
    if t == Str(RegisterEntityRequestType) then "PUT" else "GET"
  }

  /** `headersForRequest`: the `host` header alone. */
  const CatalogHeaders: Value := Obj([Field("host", Str(Constants.ConsulHostName))])

  /** The shape of a descriptor: `uri`, then `body` for a registration only, then `method` and `headers`. */
  function Layout(register: bool, uri: string, body: Value, verb: string): Value {
    if register then
      Obj([Field("uri", Str(uri)), Field("body", body), Field("method", Str(verb)), Field("headers", CatalogHeaders)])
    else
      Obj([Field("uri", Str(uri)), Field("method", Str(verb)), Field("headers", CatalogHeaders)])
  }

  /** The names a descriptor may set. */
  const DescriptorKeys: seq<string> := ["uri", "body", "method", "headers"]

  /** Each entry of a descriptor reads back as given; `body` is set for a registration only. */
  lemma LayoutEntries(register: bool, uri: string, body: Value, verb: string)
    ensures var d := Layout(register, uri, body, verb);
      && Prop(d, "uri") == Str(uri)
      && Prop(d, "method") == Str(verb)
      && Prop(d, "headers") == CatalogHeaders
      && Prop(d, "body") == (if register then body else Undefined)
  {
    var u, v, h := Field("uri", Str(uri)), Field("method", Str(verb)), Field("headers", CatalogHeaders);
    if register {
      Literal4(u, Field("body", body), v, h);
    } else {
      Literal3(u, v, h);
      Literal3Absent(u, v, h, "body");
    }
  }

  /** A descriptor sets nothing but the four descriptor names. */
  lemma LayoutKeys(register: bool, uri: string, body: Value, verb: string, k: string)
    requires k !in DescriptorKeys
    ensures k !in Keys(Layout(register, uri, body, verb))
  {
    var u, v, h := Field("uri", Str(uri)), Field("method", Str(verb)), Field("headers", CatalogHeaders);
    if register {
      LiteralKeys([u, Field("body", body), v, h], k);
    } else {
      LiteralKeys([u, v, h], k);
    }
  }

  /** The descriptor the client lays over the caller's options for one request. */
  function Descriptor(client: CatalogClient, req: Value): Value
    requires IsSupported(Prop(req, "type"))
  {
    var t := Prop(req, "type");
    Layout(t == Str(RegisterEntityRequestType), PathForRequest(client, req) + Endpoint(req),
           Prop(req, "paylaod"), MethodFor(t))
  }

  /** What `String(req)` gives for a request object inside the rejection message. */
  const UnsupportedRequestMessage: string := "Unsupported request type: [object Object]"

  /**
   * `send`: the caller's options deep-merged with the request's descriptor, or
   * a rejection for any other request kind, the datacenter, node-services and
   * deregistration requests included.
   */
  function Send(client: CatalogClient, req: Value, options: Value): (r: Result<Value, string>)
    requires IsObject(options)
    ensures r.Ok? <==> IsSupported(Prop(req, "type"))
    ensures r.Err? ==> r.error == UnsupportedRequestMessage
    ensures r.Ok? ==> r.value.Obj?
  {
    if IsSupported(Prop(req, "type")) then Ok(Merge(options, Descriptor(client, req)))
    else Err(UnsupportedRequestMessage)
  }

  /** The three catalog kinds this client does not implement are rejected. */
  lemma UnsupportedKinds(client: CatalogClient, req: Value, options: Value)
    requires IsObject(options)
    requires Prop(req, "type") in {Str(ListDatacentersRequestType), Str(ListNodeServicesRequestType), Str(DeregisterEntityRequestType)}
    ensures Send(client, req, options) == Err(UnsupportedRequestMessage)
  {
  }

  /** Laid over options, a descriptor's `uri` and `method` replace the options'. */
  lemma MergedLayoutTarget(options: Value, register: bool, uri: string, body: Value, verb: string)
    requires IsObject(options)
    ensures var r := Merge(options, Layout(register, uri, body, verb));
      && Prop(r, "uri") == Str(uri)
      && Prop(r, "method") == Str(verb)
  {
    LayoutEntries(register, uri, body, verb);
    KvConsulClient.MergedTarget(options, Layout(register, uri, body, verb), uri, verb);
  }

  /** Laid over options, the `host` header is merged into object headers and replaces any other. */
  lemma MergedLayoutHeaders(options: Value, register: bool, uri: string, body: Value, verb: string)
    requires IsObject(options)
    ensures Prop(Merge(options, Layout(register, uri, body, verb)), "headers") ==
      if IsObject(Prop(options, "headers")) then Merge(Prop(options, "headers"), CatalogHeaders) else CatalogHeaders
  {
    LayoutEntries(register, uri, body, verb);
    MergeObjectEntry(options, Layout(register, uri, body, verb), "headers");
  }

  /** Laid over options, a `body` entry is merged in and names outside the descriptor stay. */
  lemma MergedRest(options: Value, d: Value, register: bool, body: Value, k: string)
    requires IsObject(options) && d.Obj? && Prop(d, "body") == (if register then body else Undefined)
    requires k !in DescriptorKeys ==> k !in Keys(d)
    ensures var r, ob := Merge(options, d), Prop(options, "body");
      && (register ==> Prop(r, "body") == (if IsObject(ob) && IsObject(body) then Merge(ob, body) else if body != Undefined then body else ob))
      && (!register ==> Prop(r, "body") == ob)
      && (k !in DescriptorKeys ==> Prop(r, k) == Prop(options, k))
  {
    MergeProp(options, d, "body");
    if k !in DescriptorKeys {
      MergeKeepsBase(options, d, k);
    }
  }

  /**
   * Laid over options, a registration's payload is merged into the `body`
   * option (replacing it unless both are objects, and leaving it when the
   * payload is `undefined`); a listing leaves `body`, and every option the
   * descriptor does not name, as it was.
   */
  lemma MergedLayoutRest(options: Value, register: bool, uri: string, body: Value, verb: string, k: string)
    requires IsObject(options)
    ensures var r, ob := Merge(options, Layout(register, uri, body, verb)), Prop(options, "body");
      && (register ==> Prop(r, "body") == (if IsObject(ob) && IsObject(body) then Merge(ob, body) else if body != Undefined then body else ob))
      && (!register ==> Prop(r, "body") == ob)
      && (k !in DescriptorKeys ==> Prop(r, k) == Prop(options, k))
  {
    LayoutEntries(register, uri, body, verb);
    if k !in DescriptorKeys {
      LayoutKeys(register, uri, body, verb, k);
    }
    MergedRest(options, Layout(register, uri, body, verb), register, body, k);
  }

  /**
   * A supported request is sent to `destination/apiVersion/section` plus its
   * endpoint, with `PUT` to register and `GET` to list, whatever the options say.
   */
  lemma SendTarget(client: CatalogClient, req: Value, options: Value)
    requires IsObject(options) && IsSupported(Prop(req, "type"))
    ensures var r := Send(client, req, options);
      && r.Ok?
      && Prop(r.value, "uri") == Str(PathForRequest(client, req) + Endpoint(req))
      && Prop(r.value, "method") == Str(if Prop(req, "type") == Str(RegisterEntityRequestType) then "PUT" else "GET")
  {
    var t := Prop(req, "type");
    MergedLayoutTarget(options, t == Str(RegisterEntityRequestType), PathForRequest(client, req) + Endpoint(req),
                       Prop(req, "paylaod"), MethodFor(t));
  }

  /** A mark read off an endpoint: its length and two of its characters. */
  function EndpointMark(e: string): int {
    if |e| < 9 then 0 else if e[8] == '/' then 1 else if e[1] == 'r' then 2 else 3
  }

  /** Each supported kind leaves its own mark on its endpoint. */
  lemma EndpointMarks(req: Value)
    requires IsSupported(Prop(req, "type"))
    ensures var t := Prop(req, "type");
      EndpointMark(Endpoint(req)) ==
        if t == Str(ListNodesRequestType) then 0
        else if t == Str(ListServiceNodesRequestType) then 1
        else if t == Str(RegisterEntityRequestType) then 2
        else 3
  {
    KindsDiffer();
    if Prop(req, "type") == Str(ListServiceNodesRequestType) {
      ServiceEndpointMark(TemplateString(Prop(req, "serviceName")));
    }
  }

  /** The four supported type tags are pairwise different. */
  lemma KindsDiffer()
    ensures Str(RegisterEntityRequestType) != Str(ListNodesRequestType)
    ensures Str(RegisterEntityRequestType) != Str(ListServicesRequestType)
    ensures Str(RegisterEntityRequestType) != Str(ListServiceNodesRequestType)
    ensures Str(ListNodesRequestType) != Str(ListServicesRequestType)
    ensures Str(ListNodesRequestType) != Str(ListServiceNodesRequestType)
    ensures Str(ListServicesRequestType) != Str(ListServiceNodesRequestType)
  {
    assert |RegisterEntityRequestType| != |ListNodesRequestType|;
    assert |RegisterEntityRequestType| != |ListServicesRequestType|;
    assert |RegisterEntityRequestType| != |ListServiceNodesRequestType|;
    assert |ListNodesRequestType| != |ListServicesRequestType|;
    assert |ListNodesRequestType| != |ListServiceNodesRequestType|;
    assert |ListServicesRequestType| != |ListServiceNodesRequestType|;
  }

  /** The per-service endpoint has a slash at position 8. */
  lemma ServiceEndpointMark(name: string)
    ensures EndpointMark("/service/" + name) == 1
  {
    assert ("/service/" + name)[8] == '/';
  }

  /** The endpoint tells the request kinds apart: equal endpoints come from requests of one kind. */
  lemma EndpointsDistinct(req1: Value, req2: Value)
    requires IsSupported(Prop(req1, "type")) && IsSupported(Prop(req2, "type"))
    requires Endpoint(req1) == Endpoint(req2)
    ensures Prop(req1, "type") == Prop(req2, "type")
  {
    EndpointMarks(req1);
    EndpointMarks(req2);
  }

  /** Every supported request carries the `host` header, merged over object header options. */
  lemma SendHeaders(client: CatalogClient, req: Value, options: Value)
    requires IsObject(options) && IsSupported(Prop(req, "type"))
    ensures var r := Send(client, req, options);
      && r.Ok?
      && Prop(r.value, "headers") ==
           if IsObject(Prop(options, "headers")) then Merge(Prop(options, "headers"), CatalogHeaders) else CatalogHeaders
  {
    var t := Prop(req, "type");
    MergedLayoutHeaders(options, t == Str(RegisterEntityRequestType), PathForRequest(client, req) + Endpoint(req),
                        Prop(req, "paylaod"), MethodFor(t));
  }

  /**
   * A registration sends the request's `paylaod` field as the body (merged
   * into an object `body` option); listings keep the `body` option; options the
   * descriptor does not name pass through.
   */
  lemma SendBodyAndOthers(client: CatalogClient, req: Value, options: Value, k: string)
    requires IsObject(options) && IsSupported(Prop(req, "type"))
    ensures var r, ob, p := Send(client, req, options), Prop(options, "body"), Prop(req, "paylaod");
      && r.Ok?
      && (Prop(req, "type") == Str(RegisterEntityRequestType) ==>
            Prop(r.value, "body") == (if IsObject(ob) && IsObject(p) then Merge(ob, p) else if p != Undefined then p else ob))
      && (Prop(req, "type") != Str(RegisterEntityRequestType) ==> Prop(r.value, "body") == ob)
      && (k !in DescriptorKeys ==> Prop(r.value, k) == Prop(options, k))
  {
    var t := Prop(req, "type");
    MergedLayoutRest(options, t == Str(RegisterEntityRequestType), PathForRequest(client, req) + Endpoint(req),
                     Prop(req, "paylaod"), MethodFor(t), k);
  }
}
