# consul-client core, modelled in Dafny

This project models the core of `consul-client`, a TypeScript client for
Consul's HTTP API. The model covers:

- the string and object utilities that build requests (`utils.ts`);
- the request defaults of the key/value API (`kv-store/request.ts`);
- the two HTTP clients that turn a request into a `request` descriptor
  (`kv-store/ConsulClient.ts`, `catalog/ConsulClient.ts`);
- the failover cursor of `BaseClient.ts`, a standalone class that no other
  file imports or extends;
- the value holders handed to watchers (`Observer.ts`, `Observable.ts`);
- the catalog (`catalog/Catalog.ts`): settling replies, `resolveAddress`,
  and the `watchAddress` polling loop with its retry budget and its
  registry of watched services;
- the two key/value stores (`kv-store/KvStore.ts` and the older
  `KvStore.ts`): `get`, `set`, `delete`, `watch` and `ignore`.

JavaScript values are one datatype, `JsValues.Value`. Objects keep their keys
in insertion order (JavaScript's listing of integer-like keys first is left
out, see below), and property lookup returns `undefined` for a missing key. Arrays
expose the keys `"0"`, `"1"`, …, as `Object.keys` does. `===` is value
equality on primitives and never holds between two objects: every object
that reaches a comparison is freshly decoded.

Pure code is modelled as functions with lemmas. Code that loops over
locals is modelled as a method proved equal to a specification function
(`deepMerge`, `splitQueryMap`, `cleanQueryParams`, `merge`,
`arraysAreEqual`). Objects whose fields change are modelled as classes:
`BaseClient`, `Observer`, `Observable`, `Catalog`, `KvStore`, and the
per-watch state of `watchAddress` (`AddressWatch`). Each asynchronous
callback (`.then`, `.catch`, the timers) is one step: a function computes
what the step does, and a method applies it to the state.

Modules: `Wrappers`, `Text`, `JsValues`, `Constants`, `Utils`,
`ObjectUtils`, `Requests`, `KvConsulClient`, `CatalogConsulClient`,
`BaseClients`, `Cells`, `Observers`, `Observables`, `Catalogs`,
`KvReplies`, `KvStores`, `LegacyKvStores`.

## Model

| member | source | states |
|---|---|---|
| Text.Split | src/main/utils.ts:19 | `split` with a one-character separator: at least one part, no part contains the separator, and joining the parts gives the input back |
| Text.SplitJoin | src/main/utils.ts:19 | splitting the join of separator-free parts gives those parts back |
| Text.TrimStart | src/main/utils.ts:20 | the leading part of `trim`: the result is a suffix of the input, starts with no white space, and everything dropped is white space |
| Text.TrimEnd | src/main/utils.ts:20 | the trailing part of `trim`: the result is a prefix of the input, ends with no white space, and everything dropped is white space |
| Text.Trim | src/main/utils.ts:20 | `trim`: the result has no edge whitespace and an already trimmed string is unchanged |
| Text.TrimDropsOnlySpaces | src/main/utils.ts:20 | `trim` keeps a contiguous slice of the input and removes only white space before and after it |
| Text.TrimPadded | src/main/utils.ts:20 | white space added around a trimmed string is exactly what `trim` removes |
| Text.TrimIdempotent | src/main/utils.ts:20 | trimming twice is trimming once |
| Text.TrimAddsNothing | src/main/utils.ts:19-20 | trimming never introduces a character, so trimmed parts of a comma split hold no comma |
| JsValues.StrictEqualsOnPrimitives | src/main/utils.ts:152 | on non-objects, `===` is exactly value equality |
| JsValues.PlusOne | src/main/utils.ts:201 | JavaScript `+ 1`: a number is incremented, a string gets `"1"` appended |
| JsValues.SetProp | src/main/utils.ts:62 | assigning a property: the key is added at the end only if absent, it now holds the new value, and every other key keeps its value |
| Constants.DefaultAddress | src/main/constants.ts:12 | `DEFAULT_ADDRESS`: the `CONSUL_ADDRESS` value when set and non-empty, else `http://localhost:8500` |
| Constants.HeaderNamesDiffer | src/main/constants.ts:8-10 | `host`, `X-Consul-Index` and `X-Consul-Token` are three different header names |
| Utils.DefaultAddresses | src/main/utils.ts:16-27 | without `CONSUL_ADDRESS` the list is the default host; with it, every address is non-empty, trimmed and comma-free |
| Utils.DefaultAddressesRoundTrip | src/main/utils.ts:16-27 | a list of clean addresses joined with commas reads back as exactly that list |
| Utils.DefaultAddressesOfParts | src/main/utils.ts:16-27 | any comma-free parts, padded or empty, joined with commas read back as the trimmed parts with the empty ones dropped, in order |
| Utils.PaddedAddressesExample | src/main/utils.ts:16-27 | `" a , ,b"` reads as the two addresses `"a"` and `"b"`: padding is trimmed and the blank part is dropped |
| Utils.EmptyAddressList | src/main/utils.ts:18-23 | an empty `CONSUL_ADDRESS` yields no address at all, not the default host |
| Utils.JoinedAddressesSplitBack | src/main/utils.ts:19 | comma-free addresses joined with commas split back into the same list |
| Utils.CleanAddressesKept | src/main/utils.ts:19-23 | trimming and dropping empty entries leaves a clean list unchanged |
| Utils.DropEmpty | src/main/utils.ts:21-23 | the filter keeps exactly the non-empty entries, and a list without empty entries is unchanged |
| Utils.DropEmptyAppend | src/main/utils.ts:21-23 | the filter works entry by entry: filtering a concatenation concatenates the filtered halves, so order and repeats are kept |
| Utils.RemoveLeadingTrailingSlash | src/main/utils.ts:36-44 | at most one slash is removed from each end: the result is the input after one leading `/` (if any), shortened by one character exactly when what remains ends with `/`, and a string without edge slashes is unchanged |
| Utils.RemoveSlashesUnwraps | src/main/utils.ts:36-44 | a core wrapped in an optional slash on each side comes back as the core |
| Utils.EnsureProtocol | src/main/utils.ts:46-51 | the result always has `http:` or `https:`; an address that already has one is unchanged, any other gets `http://` prepended |
| Utils.EnsureProtocolIdempotent | src/main/utils.ts:46-51 | applying `ensureProtocol` twice is applying it once |
| Utils.HttpPrefixParses | src/main/utils.ts:48-49 | an address with `http://` prepended parses with protocol `http:` |
| Utils.SplitQueryMap | src/main/utils.ts:53-67 | the loop builds exactly the query map the specification function defines |
| Utils.AssignPairs | src/main/utils.ts:59-63 | the `forEach` over `key=value` pairs builds the map of pair assignments in order |
| Utils.AssignedPairsMember | src/main/utils.ts:60-63 | a key is in the map iff some pair names it |
| Utils.AssignedPairsProp | src/main/utils.ts:60-63 | each key holds the value of the last pair that names it |
| Utils.QueryMapEntries | src/main/utils.ts:53-67 | without a non-blank query part the map is empty; otherwise its keys are distinct, are exactly the pair keys, and hold the last assigned values |
| Utils.DropBlank | src/main/utils.ts:55 | exactly the parts whose trim is non-empty survive, none are added, and a single part is kept or dropped by that test |
| Utils.DropBlankAppend | src/main/utils.ts:55 | the filter works part by part: filtering a concatenation concatenates the filtered halves, so order and repeats are kept |
| Utils.CleanQueryParams | src/main/utils.ts:69-84 | the input is updated with the `dc` default, and the loop yields exactly the cleaned map the specification function defines |
| Utils.CleanedQueryEntries | src/main/utils.ts:69-84 | `dc` falls back to `CONSUL_DC`; the cleaned map keeps exactly the entries that are not `undefined`, `null` or `'false'`, with their values |
| Utils.KeptEntriesMember | src/main/utils.ts:74-81 | a key is kept iff it is present and its value passes the filter |
| Utils.KeptEntriesProp | src/main/utils.ts:74-81 | a kept key keeps its value |
| Utils.RequestPathLayout | src/main/utils.ts:89-96 | for a request without a subsection whose parts have no edge slashes, the path is `apiVersion/section/key.path` |
| Utils.HeaderNames | src/main/utils.ts:195-209 | the headers are `host`, then `X-Consul-Index` iff an index is present, then `X-Consul-Token` iff the token is truthy |
| Utils.HeaderNamesDistinct | src/main/utils.ts:195-209 | no header name appears twice |
| Utils.HeaderValues | src/main/utils.ts:195-209 | `host` is `consul`, the index header is `index + 1` in JavaScript's sense, and the token header is the token |
| ObjectUtils.AppendMissing | src/main/utils.ts:111-115 | the key list grows by exactly the missing update keys, keeps its prefix and stays duplicate-free |
| ObjectUtils.CollectKeys | src/main/utils.ts:108-115 | the loop collects the base keys followed by the update keys not among them |
| ObjectUtils.DeepMerge | src/main/utils.ts:106-134 | the method computes exactly the merge the specification function defines |
| ObjectUtils.FillMerged | src/main/utils.ts:117-131 | the second loop stores the merged value of every collected key |
| ObjectUtils.AssignMerged | src/main/utils.ts:118-130 | one key's assignment: both objects merge recursively, else a defined update value wins, else the base value stays |
| ObjectUtils.MergeKeys | src/main/utils.ts:106-134 | the merged object's keys are exactly the keys of either side, without duplicates |
| ObjectUtils.MergeProp | src/main/utils.ts:117-131 | each key of the merge holds the merged value of that key, and a key of neither side is absent |
| ObjectUtils.MergePrimitiveWins | src/main/utils.ts:124-125 | a defined update value that is not an object replaces the base value |
| ObjectUtils.MergeObjectEntry | src/main/utils.ts:121-125 | a key whose update value is an object holds the recursive merge when the base value is an object too, else the update value |
| ObjectUtils.MergeKeepsBase | src/main/utils.ts:127-128 | a key the update does not define keeps the base value |
| ObjectUtils.ArraysAreEqual | src/main/utils.ts:136-149 | true iff the lengths agree and every element of the first occurs in the second |
| ObjectUtils.SameKeyListsSymmetric | src/main/utils.ts:136-149 | on duplicate-free key lists, the test is symmetric and means the two lists hold the same keys |
| ObjectUtils.KeyListsAgree | src/main/utils.ts:174-178 | two objects with the same key lists agree on membership in both directions |
| ObjectUtils.PropsDeepEqualAll | src/main/utils.ts:181-187 | the key loop succeeds iff every listed key holds deep-equal values on both sides |
| ObjectUtils.ObjectsDeepEqual | src/main/utils.ts:171-188 | two objects are deep-equal iff their key lists match and every key holds deep-equal values |
| ObjectUtils.DeepEqualReflexive | src/main/utils.ts:151-193 | every value is deep-equal to itself |
| ObjectUtils.DeepEqualSymmetric | src/main/utils.ts:151-193 | `deepEqual(a, b)` iff `deepEqual(b, a)` |
| Requests.AssignOwnKeys | src/main/kv-store/request.ts:23-27 | the inner loop copies each own key of the next object, in order |
| Requests.MergeRecords | src/main/kv-store/request.ts:18-31 | the nested loops compute exactly the shallow merge the specification function defines |
| Requests.AssignFromMember | src/main/kv-store/request.ts:23-27 | after copying, a key is present iff it was present before or was copied |
| Requests.AssignFromCopied | src/main/kv-store/request.ts:25 | a copied key holds the source's value |
| Requests.AssignFromUntouched | src/main/kv-store/request.ts:23-27 | a key not copied keeps its earlier value |
| Requests.MergeAllMember | src/main/kv-store/request.ts:18-31 | a key is in the merge iff some object owns it |
| Requests.MergeAllProp | src/main/kv-store/request.ts:18-31 | each key holds the value of the last object that owns it |
| Requests.OverOwnKeys | src/main/kv-store/request.ts:33-35 | an option the caller gives overrides the default; other keys keep the default |
| Requests.DefaultGetRequestTags | src/main/kv-store/request.ts:8-11 | the default read is a `GetRequest` to `v1/kv` |
| Requests.DefaultGetRequestTarget | src/main/kv-store/request.ts:13-14 | the default read carries no index and the empty key path |
| Requests.DefaultGetRequestToken | src/main/kv-store/request.ts:15 | the default read carries the empty token |
| Requests.DefaultUpdateRequestFields | src/main/kv-store/request.ts:37-45 | the default write is an `UpdateRequest` with no index and the empty value |
| Requests.DefaultDeleteRequestFields | src/main/kv-store/request.ts:51-58 | the default delete is a `DeleteRequest` whose index is the string `'0'` |
| Requests.GetRequestDefaults | src/main/kv-store/request.ts:33-35 | each field the options leave out takes its `DEFAULT_GET_REQUEST` value |
| Requests.UpdateRequestDefaults | src/main/kv-store/request.ts:47-49 | each field the options leave out takes its `DEFAULT_UPDATE_REQUEST` value: type, `v1`, `kv`, the empty key path, the empty value, no index |
| Requests.DeleteRequestDefaults | src/main/kv-store/request.ts:60-62 | each field the options leave out takes its `DEFAULT_DELETE_REQUEST` value: type, `v1`, `kv`, the empty key path, index `'0'` |
| KvConsulClient.NewConsulClient | src/main/kv-store/ConsulClient.ts:25-32 | the destination always has a web protocol; a clean given address, or a clean `CONSUL_ADDRESS` when none is given, is kept or gets `http://`; with nothing given and nothing in the environment it is the default host |
| KvConsulClient.NewConsulClientUnwraps | src/main/kv-store/ConsulClient.ts:25-32 | an address wrapped in at most one slash on each side, given or from the environment, is stored as its core with `http://` added when it names no protocol |
| KvConsulClient.DefaultHostIsWebAddress | src/main/constants.ts:1 | the default host has a web protocol and no edge slashes, so the constructor keeps it as it is |
| KvConsulClient.UriLayout | src/main/kv-store/ConsulClient.ts:80-82 | the URI is the destination, a slash and the request path |
| KvConsulClient.RawReadQuery | src/main/kv-store/ConsulClient.ts:42-45 | a read's raw query holds `dc` then `index` |
| KvConsulClient.QueryEntries | src/main/kv-store/ConsulClient.ts:42-45 | the query has `dc` iff the key's `dc` or `CONSUL_DC` passes the filter, and `index` only for reads whose index passes it |
| KvConsulClient.Send | src/main/kv-store/ConsulClient.ts:34-78 | a descriptor is built iff the type is one of the three key/value types; any other type is rejected with the unsupported-type message |
| KvConsulClient.DescriptorEntries | src/main/kv-store/ConsulClient.ts:36-72 | the descriptor holds the URI, the verb, the headers, the cleaned query, and a body only for writes |
| KvConsulClient.SendSetsUriAndMethod | src/main/kv-store/ConsulClient.ts:36-72 | whatever the options say, the request goes to the request's URI with `GET`, `PUT` or `DELETE` for its type |
| KvConsulClient.SendHeadersAndQuery | src/main/kv-store/ConsulClient.ts:36-72 | the request's headers and query are merged over the options' headers and query |
| KvConsulClient.SendKeepsOtherOptions | src/main/kv-store/ConsulClient.ts:36-72 | options the descriptor does not name pass through unchanged |
| CatalogConsulClient.NewCatalogClient | src/main/catalog/ConsulClient.ts:37-42 | the destination is the given address or `DEFAULT_ADDRESS` with one edge slash trimmed from each end, and no protocol is added |
| CatalogConsulClient.NewClientUnwraps | src/main/catalog/ConsulClient.ts:37-42 | an address wrapped in at most one slash on each side, given or from the environment, is stored as its core |
| CatalogConsulClient.Send | src/main/catalog/ConsulClient.ts:44-87 | a descriptor is built iff the type is one of the four handled catalog types; any other type is rejected with the unsupported-type message |
| CatalogConsulClient.UnsupportedKinds | src/main/catalog/ConsulClient.ts:83-86 | the catalog types with no case (datacenters, node services, deregistration) are rejected |
| CatalogConsulClient.SendTarget | src/main/catalog/ConsulClient.ts:44-91 | the request goes to `destination/apiVersion/section` plus the endpoint, with `PUT` to register and `GET` otherwise, whatever the options say |
| CatalogConsulClient.EndpointsDistinct | src/main/catalog/ConsulClient.ts:49-77 | equal endpoints come from requests of one type |
| CatalogConsulClient.SendHeaders | src/main/catalog/ConsulClient.ts:27-33 | every catalog request carries the `host` header, merged over object header options |
| CatalogConsulClient.SendBodyAndOthers | src/main/catalog/ConsulClient.ts:46-54 | a registration sends the request's `paylaod` as the body; listings keep the `body` option; other options pass through |
| BaseClients.Normalize | src/main/BaseClient.ts:18-20 | every stored address has a web protocol |
| BaseClients.NormalizeAll | src/main/BaseClient.ts:18-20 | the list is normalised element by element, keeping its length and order |
| BaseClients.BaseClient.constructor | src/main/BaseClient.ts:17-23 | the addresses, or the default host, are normalised; the cursor starts at index 0 on the first address, or on none for an empty list |
| BaseClients.BaseClient.RunRetry | src/main/BaseClient.ts:30-48 | if the failed address is current and another follows, move on and retry; if the current address already changed, retry without moving; otherwise reset the index to 0, keep the current address and reject |
| BaseClients.BaseClient.Attempt | src/main/BaseClient.ts:25-28 | one attempt sends to the current address; an answer settles with the cursor unchanged, and a failure either moves the cursor or settles the run |
| BaseClients.BaseClient.Send | src/main/BaseClient.ts:25-48 | a single send retries through the addresses exactly as the failover run defines |
| BaseClients.Failover | src/main/BaseClient.ts:25-48 | the run starts at the current address and its result is the answer from the last address tried |
| BaseClients.FailoverExhausts | src/main/BaseClient.ts:32-45 | when every address fails, a run from index `i` tries each remaining address once, in order, then rejects with index 0 and the last address still current |
| BaseClients.FailoverStopsAtFirstAnswer | src/main/BaseClient.ts:25-42 | the run stops at the first address that answers and leaves the cursor there |
| BaseClients.SecondRoundSkipsFirst | src/main/BaseClient.ts:43-45 | after a rejection the next send starts at the last address, not the first, and it fails over only to index 1 onwards |
| BaseClients.FailoverAnswers | src/main/BaseClient.ts:25-27 | an answer from the current address ends the run at once |
| BaseClients.FailoverStep | src/main/BaseClient.ts:35-41 | a failure with a next address moves to it and resumes from there |
| BaseClients.FailoverGivesUp | src/main/BaseClient.ts:43-45 | a failure at the last index ends the run with the index reset to 0 |
| Cells.InitialValue | src/main/Observer.ts:11 | `value \|\| null`: a truthy initial value is stored, anything else becomes `null` |
| Cells.Notify | src/main/Observer.ts:40-42 | every listener is called once, in registration order, with the new value |
| Cells.NotifiedInOrder | src/main/Observer.ts:40-42 | the calls name the listeners in order and all carry the new value |
| Observers.Observer.constructor | src/main/Observer.ts:10-17 | the observer starts active with `value \|\| null`, no previous value and no listeners |
| Observers.Observer.Destroy | src/main/Observer.ts:19-22 | the observer becomes inactive and drops its listeners; its values stay |
| Observers.Observer.Previous | src/main/Observer.ts:24-26 | returns the previous value |
| Observers.Observer.Current | src/main/Observer.ts:28-30 | returns the current value |
| Observers.Observer.OnValue | src/main/Observer.ts:32-34 | the listener is appended and nothing else changes |
| Observers.Observer.Update | src/main/Observer.ts:36-46 | while active, a value not `===` the current one shifts current to previous and notifies every listener in order; otherwise nothing changes; the result is whether the observer is active |
| Observables.Observable.constructor | src/main/Observable.ts:7-10 | starts with `value \|\| null`, no previous value and no listeners |
| Observables.Observable.Update | src/main/Observable.ts:12-20 | a value not `===` the current one shifts current to previous and notifies every listener in order; otherwise nothing changes |
| Observables.Observable.Previous | src/main/Observable.ts:22-24 | returns the previous value |
| Observables.Observable.Current | src/main/Observable.ts:26-28 | returns the current value |
| Observables.Observable.OnValue | src/main/Observable.ts:30-32 | the listener is appended and nothing else changes |
| Catalogs.Settle | src/main/catalog/Catalog.ts:54-62 | only a 200 resolves, with the body; any other status rejects with the status message; a rejected request stays rejected |
| Catalogs.ListedServiceName | src/main/catalog/Catalog.ts:128 | the name sent is the `?`-free prefix that stops right at the first `?`, and it equals the argument iff the argument has no `?` |
| Catalogs.PortOr80 | src/main/catalog/Catalog.ts:166 | `Port \|\| 80`: a non-zero port is kept, a missing or zero port becomes 80 |
| Catalogs.DefaultPort | src/main/catalog/Catalog.ts:165-167 | an entry without a port, or with port 0, resolves to `address:80` |
| Catalogs.ResolveAddress | src/main/catalog/Catalog.ts:156-174 | resolves iff the listing succeeded with a non-empty list, and then to `address:port` of one of the listed entries; a failed listing passes its error on, and an empty list fails with `No service found with name[…]` |
| Catalogs.ResolveAfterListing | src/main/catalog/Catalog.ts:145-174 | `resolveAddress` resolves iff the listing is answered with 200 and a non-empty list, and then to the picked entry's `address:port`; a non-200 rejects with the status message, and an empty list with `No service found with name[…]` |
| Catalogs.WatchStep | src/main/catalog/Catalog.ts:216-292 | one reply to a watch poll: the retry counter is reset, kept or incremented; a retry happens only below the budget; an error is pushed only once the budget is spent; a changed `ModifyIndex` pushes the address and polls on iff the sink accepts; an unchanged one polls again later with the same index; replies for an unregistered service are dropped |
| Catalogs.OkReplyStep | src/main/catalog/Catalog.ts:216-248 | a 200 with entries resets the counter; a new `ModifyIndex` pushes the picked address and polls at once with it if the sink accepted, else stops; an unchanged index polls later with the same index |
| Catalogs.EmptyOkReplyStep | src/main/catalog/Catalog.ts:216-292 | a 200 with no entries throws when reading `Service`; the `.catch` retries within budget, then pushes an error with that message |
| Catalogs.ErrorReplyStep | src/main/catalog/Catalog.ts:260-274 | any status other than 200 and 404 fails, retrying within budget, with the reply's status message |
| Catalogs.NotFoundNeverPushes | src/main/catalog/Catalog.ts:250-258 | a 404 never pushes anything: it retries below the budget and then stops silently |
| Catalogs.RejectionIgnoresRegistry | src/main/catalog/Catalog.ts:278-292 | a rejected request is retried or fails the same way whether or not the service is still registered |
| Catalogs.RetryBudgetSpent | src/main/catalog/Catalog.ts:278-292 | from `n` retries, `max - n + 1` consecutive rejections give `max - n` silent retries counting up, then one error push with the last message, and the watch stops |
| Catalogs.AddressWatch.constructor | src/main/catalog/Catalog.ts:196-199 | a watch starts with no retries, no index, and polling |
| Catalogs.AddressWatch.Receive | src/main/catalog/Catalog.ts:216-292 | the session takes exactly the step `WatchStep` defines, given whether the catalog still holds the service, and keeps the retry counter within budget |
| Catalogs.AddressWatch.RetryOrFail | src/main/catalog/Catalog.ts:264-273 | below the budget, retry later and count it; at the budget, push the error and stop |
| Catalogs.Catalog.constructor | src/main/catalog/Catalog.ts:24-34 | `maxRetries` defaults to 5 and nothing is watched |
| Catalogs.Catalog.WatchAddress | src/main/catalog/Catalog.ts:187-301 | a fresh active observer with no value is registered under the name, replacing any earlier one, and its watch starts polling without an index |
| Catalogs.Catalog.IgnoreAddress | src/main/catalog/Catalog.ts:177-185 | a registered observer is destroyed and unregistered; an unknown name changes nothing |
| KvReplies.FirstOfList | src/main/kv-store/KvStore.ts:56-57 | `metadata[0]` is the first entry of a non-empty list and `undefined` for an empty one |
| KvReplies.DecodeFirstOfList | src/main/kv-store/KvStore.ts:56-57 | a non-empty list decodes its first entry's `Value`, and an empty list fails reading `Value` |
| KvReplies.WriteResult | src/main/kv-store/KvStore.ts:113-124 | `set` and `delete` resolve iff the status is 200 (with the body) or 404 (with `false`); any other status rejects with the status message |
| KvStores.GetResult | src/main/kv-store/KvStore.ts:53-65 | 200 decodes the first entry's value, 404 resolves with `null`, any other status rejects with the status message and the body |
| KvStores.GetDecodesFirstEntry | src/main/kv-store/KvStore.ts:53-57 | a stored value comes back from `get` as the decoding of the first entry, and an empty list fails |
| KvStores.WatchStep | src/main/kv-store/KvStore.ts:81-99 | the observer gets a value, and polling goes on with the `x-consul-index` header, iff the path is still watched and a 200 decodes; everything else stops the watch |
| KvStores.PollRequestIndex | src/main/kv-store/KvStore.ts:77-80 | each poll sends its token as the request's own `index` |
| KvStores.PollIndexHeader | src/main/kv-store/KvStore.ts:77-87 | the first poll sends no index header; a later one sends the header string from the previous reply with `"1"` appended |
| KvStores.IndexHeaderOf | src/main/utils.ts:200-202 | a request without an index has no index header; one with an index sends `index + 1` |
| KvStores.KvStore.constructor | src/main/kv-store/KvStore.ts:26-31 | nothing is watched |
| KvStores.KvStore.Watch | src/main/kv-store/KvStore.ts:72-105 | a fresh active observer with no value is registered under the key's path, replacing any earlier one, and the first poll goes out without an index |
| KvStores.KvStore.Ignore | src/main/kv-store/KvStore.ts:68-70 | the path is unregistered; its observer is neither destroyed nor touched |
| KvStores.KvStore.Receive | src/main/kv-store/KvStore.ts:81-99 | the observer is updated with exactly the value `WatchStep` yields, and the next poll is the one it schedules |
| LegacyKvStores.GetResult | src/main/KvStore.ts:80-92 | 200 decodes the first entry's value, 404 resolves with `null`, any other status rejects with the status message alone |
| LegacyKvStores.GetResultsAgree | src/main/KvStore.ts:80-92 | the two stores' `get` agree except that the newer one adds the body to the error message |
| LegacyKvStores.WatchStep | src/main/KvStore.ts:24-43 | the observable gets a value, and polling goes on, iff a 200 decodes; the next token is the first entry's `ModifyIndex` |
| LegacyKvStores.WatchStepsAgree | src/main/KvStore.ts:24-43 | the older watch hands over the same values as the newer one for a watched path; only the token differs |
| LegacyKvStores.TokenFromFirstEntry | src/main/KvStore.ts:30-32 | after a 200 with a readable first entry, the next poll carries that entry's `ModifyIndex` |
| LegacyKvStores.Watch | src/main/KvStore.ts:95-99 | a fresh observable with no value, and a first poll without an index |
| LegacyKvStores.Receive | src/main/KvStore.ts:24-43 | the observable is updated with exactly the value `WatchStep` yields, and the next poll is the one it schedules |

## Left out

- The transport (`request-promise-native`) is not modelled. The clients' `send` returns the descriptor passed to it, and the stores and the catalog receive the reply as a parameter.
- `url.parse` is reduced to reading the scheme: the characters before the first `:`, when they are all scheme characters. Hosts, ports and paths are not parsed.
- `decodeBase64` (base64, then `JSON.parse`) is a parameter that may fail. Base64 and JSON are not modelled.
- Numbers are integers: no `NaN`, no fractions and no floating-point rounding.
- Environment variables (`CONSUL_ADDRESS`, `CONSUL_DC`) are parameters.
- Object identity is not modelled: `===` between two objects is always false.
- JavaScript lists integer-like keys of an object first, in ascending order, before its other keys. Objects here keep insertion order for every key; the request and option objects modelled have no integer-like keys.
- `BaseClients.BaseClient.Send`: the transport outcome is a function of the address (`respond`), so two sends to the same address, or duplicate addresses in the list, always get the same outcome. A server that answers one request and fails the next is not modelled.
- The `setTimeout` delays (1000 ms in `runRetry`, 5000 ms in the catalog watch) become scheduled steps. There are no clocks.
- The logger and `console.error` are left out.
- `Math.random` becomes the index `pick`.
- A listener that throws is not modelled: listeners are identifiers, and a notification is recorded in a log.
- `kv-store/types.ts`, `catalog/types.ts`, `src/main/request.ts` and `src/main/ConsulClient.ts` are not part of this model. The request type tags are their enum names as strings.
- The text of a `TypeError` thrown by reading through a missing entry depends on the JavaScript engine. The V8 wording is used.
- `Catalogs.WatchStep`: the sink is called as `sink(undefined, address)`, but `Observer`'s sink takes one argument. The value the observer receives is not modelled, only the sink's boolean verdict (`accepted`).
- `Observers.Observer.constructor`: the updater is not modelled. Its single synchronous call with a sink bound to `update` (`Observer.ts`:14-16) is dropped; each call the updater would make to that sink is a call of `Observers.Observer.Update`.
- `KvConsulClient.Send`: requires the request's `key` to be readable, which the source does not demand. The unsupported-type branch never reads `key`, and a supported request without one throws synchronously from `uriForRequest` instead of rejecting; neither case is modelled. Every caller in the source passes a key.
- `KvStores.KvStore.Watch`: as written, `new Observer()` passes no updater, so the constructor's call `updater(...)` (`Observer.ts`:14) throws a `TypeError` before `watchMap.set` runs, and `update` is private (`Observer.ts`:36). The model describes the evidently intended behaviour instead: an observer with no value is registered and its `update` receives each value.
- `Catalogs.Catalog.constructor`: the address list and `baseOptions` are not stored. The source passes the list to the catalog `ConsulClient`, whose constructor takes one address string. That link is not modelled.
- `baseOptions` and request options are merged with `deepMerge` by every store call. That merge is modelled as `ObjectUtils.Merge`, but the stores do not hold options.
- `Utils.RequestPathLayout`: proved only for requests without a subsection whose parts have no edge slashes. The general case is `Utils.RemoveLeadingTrailingSlash`.
- `KvStores.PollIndexHeader`: the index stays a JavaScript value, not a number. The `x-consul-index` header is a string, so `index + 1` appends `"1"`, and the model keeps that.
- Retries after `runRetry` happen through a `Promise` that resolves with a fresh `send`. Concurrent sends that share the cursor appear only as separate `RunRetry` events, not as interleaved runs.
- `Catalogs.WatchStep` covers a 200 list only in the shape of `ServiceEntry`. Entries without a `Service` field are not modelled.
