# libupnpp core, modelled in Dafny

This project models three parts of libupnpp, a C++ library for UPnP devices
and control points.

- **SOAP marshaling helpers** (module `SoapHelp`):
  - quoting and unquoting of the five predefined XML entities (section 4.6 of XML 1.0);
  - `sprintf("%d")` formatting of integers;
  - decoding of an action's arguments, and of an event property set, into a name -> value map (sections 3.2 and 4.2 of the UPnP Device Architecture 1.0);
  - the typed getters on a decoded map;
  - the outgoing argument list and the body document built from it.

  The IXML document tree is abstracted by module `Ixml`. A node's child list may be missing, and its entries may be NULL. A node without children reports a one-entry list holding NULL, which is what the decoders' "NULL at index 0" rule relies on.
- **The device host** (modules `EventLoop` and `Device`):
  - the process-wide UDN -> device registry;
  - each device's service table (a map plus the ids in insertion order);
  - the action dispatch table keyed by action name followed by service id;
  - the single callback for action, state-variable and subscription requests, with its status codes;
  - the polling event loop: a pass counter, a full-state flag every tenth pass, coalescing of early wakeups less than 1000 ms apart (measured by `timespec_diffms`, whose result is a 32-bit `int`), and the exit flag.
- **MediaRenderer selection on the control-point side** (module `MediaRendererControl`):
  - the device-type test that ignores the version;
  - the visitor that collects renderers by UDN;
  - the cache-or-first-match selection of service handles.

Sources that change state are modelled as they are written:
- classes with fields, `modifies` clauses and loops;
- each method proved against a specification function of the module;
- lemmas stating what those functions promise.

Calls into the UPnP library, the clock and the condition variable are parameters of the model or records of the call made.

Common helpers (`Common`):
- the "assign every pair into a map in order" fold, `Insert`;
- `LastValue`, the value of the last pair with a given key;
- lemmas relating the two.

Both the argument decoder and the action table rely on them.

## Model

| member | source | states |
|---|---|---|
| SoapHelp.XmlQuote | libupnpp/soaphelp.cxx:158-172 | the result is `Quoted(s)`: each of `"` `&` `<` `>` `'` becomes its entity and every other character is copied, in order |
| SoapHelp.QuotedConcat | libupnpp/soaphelp.cxx:161-170 | quoting works character by character: quoting a concatenation concatenates the quotings |
| SoapHelp.QuotedIdentity | libupnpp/soaphelp.cxx:158-172 | quoting leaves a string unchanged if and only if it holds none of the five markup characters |
| SoapHelp.QuotedHasNoBareMarkup | libupnpp/soaphelp.cxx:161-170 | the quoted text holds no `"` `<` `>` `'`; every markup character in it is an `&` |
| SoapHelp.QuotedLength | libupnpp/soaphelp.cxx:161-170 | quoting never shortens the text |
| SoapHelp.EscapeChar | libupnpp/soaphelp.cxx:162-169 | the switch writes the entity of each of the five markup characters and copies any other character |
| SoapHelp.FindSemi | libupnpp/soaphelp.cxx:179-183 | the scan stops at the first `;` at or after the `&`, or at the end of the input |
| SoapHelp.UnquoteReference | libupnpp/soaphelp.cxx:178-203 | for an `&` with no `;` after it, the rest of the input is written and decoding ends; otherwise the reference up to the `;` is decoded and the scan resumes after it |
| SoapHelp.UnquoteStep | libupnpp/soaphelp.cxx:177-206 | one turn of the loop writes the decoding of the text it consumes, so the unquoting so far plus the unquoting of the rest is always the unquoting of the whole |
| SoapHelp.XmlUnquote | libupnpp/soaphelp.cxx:174-209 | the result is `Unquoted(s)`, the entity-decoding specification |
| SoapHelp.ReplaceEntity | libupnpp/soaphelp.cxx:188-202 | the name between `&` and `;` is compared with `quot`, `amp`, `lt`, `gt`, `apos`: a match gives its character, anything else gives the reference as written, `&` and `;` included |
| SoapHelp.UnquotedStepEntity | libupnpp/soaphelp.cxx:178-203 | an `&` with no `;` after it makes the rest of the input, from that `&`, be copied verbatim; with a `;`, the reference up to the first `;` is replaced and decoding goes on after it |
| SoapHelp.UnquotedEntity | libupnpp/soaphelp.cxx:188-203 | `&name;` followed by any text decodes to the character of one of the five names, or to `&name;` unchanged for any other name, followed by the decoding of the text |
| SoapHelp.UnquotedNoAmp | libupnpp/soaphelp.cxx:177-206 | text without `&` is returned unchanged |
| SoapHelp.UnquotedNoSemi | libupnpp/soaphelp.cxx:178-187 | text without `;` is returned unchanged: no reference is complete |
| SoapHelp.QuoteRoundTrip | libupnpp/soaphelp.cxx:158-209 | `xmlUnquote(xmlQuote(s)) == s` for every string |
| SoapHelp.I2sRoundTrip | libupnpp/soaphelp.cxx:212-217 | the decimal text of any integer is non-empty and reads back, through the atoi model, as the same integer |
| SoapHelp.SoapIncoming.constructor | libupnpp/soaphelp.cxx:39-45 | a new incoming message has no name and no arguments |
| SoapHelp.SoapIncoming.Decode | libupnpp/soaphelp.cxx:65-122 | records the action name; the status and the new argument map are those of `DecodeDoc` with the argument rule, starting from the old map, so arguments read before a failure stay stored |
| SoapHelp.DecodeRules | libupnpp/soaphelp.cxx:65-122 | rules shared by both decoders. No top node fails. A missing child list, or a NULL first entry, succeeds and adds nothing. Otherwise decoding succeeds iff every entry is present and well formed. On success the entries' pairs are stored in list order |
| SoapHelp.NullEntryLaterFails | libupnpp/soaphelp.cxx:86-97 | a NULL entry at an index above 0, after a non-NULL first entry, makes decoding fail |
| SoapHelp.DecodedArgValue | libupnpp/soaphelp.cxx:98-113 | after decoding, a child's name maps to the value of its first child node, or `""`; the last child of a given name wins |
| SoapHelp.GetString | libupnpp/soaphelp.cxx:148-156 | fails only when the name is absent; an empty value is returned |
| SoapHelp.GetInt | libupnpp/soaphelp.cxx:138-146 | fails when the name is absent or its value empty, otherwise yields atoi of the value |
| SoapHelp.GetBool | libupnpp/soaphelp.cxx:129-136 | fails when the name is absent or its value empty, otherwise yields the string-to-boolean conversion of the value |
| SoapHelp.IntArgRoundTrip | libupnpp/soaphelp.cxx:138-146 | an integer stored as its decimal text is read back unchanged by the integer getter |
| SoapHelp.DecodePropertySet | libupnpp/soaphelp.cxx:307-370 | the status and map are those of `DecodeDoc` with the property rule: key = name of the wrapper's first child, value = that child's first text or `""`, no unquoting, same top-node and NULL-entry rules as `decode` |
| SoapHelp.PropertySetRules | libupnpp/soaphelp.cxx:345-362 | in a successfully decoded property set, every wrapper has a named first child and that name is a key of the map |
| SoapHelp.PropertyEntryAsWritten | libupnpp/soaphelp.cxx:336-362 | as written, a wrapper with a named first child stores that name; any other wrapper reaches the map with a NULL name |
| SoapHelp.EmptyPropertyWrapper | libupnpp/soaphelp.cxx:339-362 | `<e:property/>` reaches the map with a NULL name as written; the corrected decoder rejects the document |
| SoapHelp.SoapOutgoing.constructor | libupnpp/soaphelp.cxx:234-242 | sets the service type and action name; no argument yet |
| SoapHelp.SoapOutgoing.Empty | libupnpp/soaphelp.cxx:226-232 | empty service type, name and argument list |
| SoapHelp.SoapOutgoing.AddArg | libupnpp/soaphelp.cxx:255-265 | `(k, v)` goes at the end and the earlier pairs are untouched |
| SoapHelp.SoapOutgoing.BuildSoapBody | libupnpp/soaphelp.cxx:267-295 | the document built is `SoapBody(serviceType, name, isResponse, data)` |
| SoapHelp.SoapBodyShape | libupnpp/soaphelp.cxx:274-290 | the top element is `u:` + name, with `Response` appended iff `isResponse`. Its namespace and `xmlns:u` attribute are the service type. It has one child per pair, in order, each named by the pair's key with the pair's value, as given, as its text |
| SoapHelp.SoapBodyRoundTrip | libupnpp/soaphelp.cxx:267-295 | decoding a built body with the argument decoder succeeds and stores exactly the pairs, in order |
| EventLoop.TruncDiv | libupnpp/device/device.cxx:421-422 | C division of an int by a positive int: the remainder lies strictly between -divisor and divisor and has the dividend's sign |
| EventLoop.AddNanos | libupnpp/device/device.cxx:464-466 | the deadline is a normalised timespec exactly `n` nanoseconds after the clock reading |
| EventLoop.ToInt | libupnpp/device/device.cxx:419-423 | the `long` value returned as an `int` lies in the 32-bit range and is congruent to the `long` modulo 2^32; a value already in range is unchanged |
| EventLoop.DiffMsBounds | libupnpp/device/device.cxx:419-423 | the `long` expression of `timespec_diffms` is within one millisecond, either way, of the true elapsed time. The `int` it returns lies in the 32-bit range and is congruent to that expression modulo 2^32. For instants at most INT_MAX ms apart the two are equal, so the returned value is within one millisecond too |
| EventLoop.DiffMsThreshold | libupnpp/device/device.cxx:482-487 | for instants at most INT_MAX ms apart: those at most 999 ms apart fall under the 1000 ms threshold; those a second or more apart do not; a later instant is never a negative distance away |
| EventLoop.DiffMsWraps | libupnpp/device/device.cxx:419-423 | beyond INT_MAX ms the returned value wraps: instants 2^31 ms apart give INT_MIN, and instants 2^32 + 500 ms apart give 500 |
| EventLoop.DeadlineDiff | libupnpp/device/device.cxx:464-483 | comparing two deadlines one second ahead gives the same milliseconds as comparing the wake times |
| EventLoop.DecideRules | libupnpp/device/device.cxx:474-507 | one wakeup. The exit flag or a failed wait stops the loop. A timeout clears `didearly` and runs a pass. An early wakeup skips the pass iff a previous early wakeup is recorded whose deadline is, by `timespec_diffms`, less than 1000 ms before this one's; otherwise it records the deadline and runs a pass. A pass adds one to `count` and asks for full state iff the count is a non-zero multiple of 10 |
| EventLoop.RunCount | libupnpp/device/device.cxx:506-507 | over any run, the counter rises by exactly the number of passes, and pass k asks for full state iff `count0 + k + 1` is a multiple of 10 |
| EventLoop.RunStopsAtExit | libupnpp/device/device.cxx:474-475 | nothing after an Exit wakeup has any effect on the run |
| EventLoop.FirstWakeStops | libupnpp/device/device.cxx:474-479 | an Exit wakeup ends the loop at once with the flag set; a failed wait ends it at once; neither runs a pass |
| EventLoop.TwoSignals | libupnpp/device/device.cxx:479-499 | two early wakeups at most 999 ms apart give one pass; two a second up to INT_MAX ms apart give two |
| EventLoop.WrappedGapSkips | libupnpp/device/device.cxx:479-487 | two early wakeups 2^32 + 500 ms apart give only one pass, because the wrapped difference is under the threshold |
| Device.DefaultEventData | libupnpp/device/device.cxx:563-567 | the base getEventData succeeds and reports nothing |
| Device.VectorsToArgsLists | libupnpp/device/device.cxx:93-115 | builds the lists described by `ArgsFor` |
| Device.ArgsForRoundTrip | libupnpp/device/device.cxx:93-115 | vectors of different sizes are refused and leave the lists empty. Otherwise the names pass unchanged, and each value is quoted so that unquoting it gives back what the service reported |
| Device.UpnpDevice.NotifyEvent | libupnpp/device/device.cxx:399-417 | nothing is sent for an empty name list. Otherwise the lists from `vectorstoargslists` are sent, whether or not it accepted them |
| Device.UpnpDevice.PollServices | libupnpp/device/device.cxx:517-527 | one pass sends `PassCalls`: the services are polled in id order, each poll seeing its own report, and a notification is sent for each poll that reports success and at least one variable |
| Device.PassCallsSound | libupnpp/device/device.cxx:517-527 | every notification of a pass comes from a listed service that reported success and at least one variable. It carries that service's id and the device's id, and holds what the service reported, quoted. A pass sends no more notifications than there are ids |
| Device.PassCallsComplete | libupnpp/device/device.cxx:517-527 | a pass sends exactly one notification per poll that reports success and at least one variable, in the order of the polls. The notification of poll j comes right after those of the reporting polls before it, and holds what poll j reported |
| Device.RepeatedIdOnce | libupnpp/device/device.cxx:517-524 | a service whose id was added twice is polled twice in a pass. If it reports its changes at the first poll and nothing at the second, the pass sends one notification |
| Device.PassCallsOrder | libupnpp/device/device.cxx:517-527 | when every service reports something, a pass sends one notification per id, in id order, each with the device's id |
| Device.NotificationsSound | libupnpp/device/device.cxx:517-527 | over a run, every notification was reported by a listed service at the pass that sent it, with that pass's full-state flag and what the services reported at that pass |
| Device.DefaultServicesSilent | libupnpp/device/device.cxx:517-527 | services that keep the default getEventData never cause a notification |
| Device.UpnpDevice.DecideStep | libupnpp/device/device.cxx:474-507 | the branches taken after the wait are those of `Decide` |
| Device.UpnpDevice.OneWakeup | libupnpp/device/device.cxx:471-527 | an Exit wakeup sets the exit flag. The turn then takes `Decide`'s step. A pass sends what polling every service with the pass's full-state flag sends, and any other step sends nothing |
| Device.UpnpDevice.EventLoop | libupnpp/device/device.cxx:443-529 | nothing happens when start-up failed. Otherwise, the exit flag and the notifications sent are those of `Run` over the wakeups. Pass p polls the services as they report at that pass and at that poll, so reports may change from pass to pass and between two polls of a service listed twice |
| Device.Respond | libupnpp/device/device.cxx:280-381 | only an action request can set a result, and then with success. Only a subscription request can be accepted, and then with the accept call's status. State-variable and unknown requests give UPNP_E_INVALID_PARAM |
| Device.ActionRules | libupnpp/device/device.cxx:283-327 | each of these gives UPNP_E_INVALID_PARAM: an unknown service id, no routine under action name + service id, arguments that do not decode. A failing routine's status is returned without a result. Otherwise the result is named `u:<action>Response`, is in the service's namespace, decodes to the routine's pairs, and the status is success |
| Device.SubscriptionRules | libupnpp/device/device.cxx:340-372 | the full state is requested. An unknown service, or a failing getEventData, gives UPNP_E_INVALID_PARAM. Otherwise the subscription is accepted with the reported variables, quoted, and that call's status is returned |
| Device.UpnpDevice.Callback | libupnpp/device/device.cxx:280-381 | the device's answer is `Respond` on its current tables |
| Device.DeviceRegistry.constructor | libupnpp/device/device.cxx:88-90 | the registry starts empty |
| Device.DeviceRegistry.SCallBack | libupnpp/device/device.cxx:221-262 | an unknown event type, or an unregistered UDN, gives UPNP_E_INVALID_PARAM; otherwise the named device answers |
| Device.UpnpDevice.constructor | libupnpp/device/device.cxx:119-158 | a usable library enters the device under its id, replacing any other, and registers the handlers only if no device was registered. An unusable library leaves the registry alone. The tables start empty |
| Device.UpnpDevice.Destroy | libupnpp/device/device.cxx:192-200 | the entry under the device's id is removed |
| Device.UpnpDevice.AddService | libupnpp/device/device.cxx:383-388 | the map entry is set and the id appended (an id added twice appears twice), and the map/list agreement is kept |
| Device.UpnpService.constructor | libupnpp/device/device.cxx:552-557 | a new service adds itself to its device under its id |
| Device.UpnpDevice.AddActionMapping | libupnpp/device/device.cxx:390-397 | the routine is stored under action name + service id, replacing any earlier one |
| Device.LastRegistrationWins | libupnpp/device/device.cxx:390-397 | after successive registrations, a key holds the routine of its last registration |
| Device.UpnpDevice.ShouldExit | libupnpp/device/device.cxx:544-548 | the exit flag is set |
| MediaRendererControl.IsMRDevice | libupnpp/control/mediarenderer.cxx:37-46 | true iff `st` is at least as long as the type without its `:1` suffix and begins with it |
| MediaRendererControl.MRDeviceVersions | libupnpp/control/mediarenderer.cxx:40-46 | any text after the versionless type is accepted (`:1`, `:2`, ...). The MediaServer type is not, and neither is the versionless type cut short by one character |
| MediaRendererControl.MDAccum | libupnpp/control/mediarenderer.cxx:51-67 | stores the device under its UDN iff the service is RenderingControl or OHProduct and the friendly name is empty or the device's; always continues |
| MediaRendererControl.AccumStep | libupnpp/control/mediarenderer.cxx:58-65 | an accepted visit stores its device under the device's UDN. Every other UDN keeps its entry, or its absence, and a visit that is not accepted changes nothing |
| MediaRendererControl.CollectedKeys | libupnpp/control/mediarenderer.cxx:51-67 | a UDN is collected iff some accepted visit is for a device with that UDN, and it is stored under that UDN |
| MediaRendererControl.CollectedLastWins | libupnpp/control/mediarenderer.cxx:58-65 | a device visited several times is stored as at its last accepted visit |
| MediaRendererControl.Traverse | libupnpp/control/mediarenderer.cxx:72-76 | the traversal with the visitor builds `Collected` over the visits |
| MediaRendererControl.MapValues | libupnpp/control/mediarenderer.cxx:77-78 | every collected description is listed exactly once |
| MediaRendererControl.GetDeviceDescs | libupnpp/control/mediarenderer.cxx:69-80 | the old list is kept as a prefix. What follows is every collected description exactly once. The result is true iff the list ends up non-empty |
| MediaRendererControl.FirstMatch | libupnpp/control/mediarenderer.cxx:98-103 | the index of the first service of the kind in description order, or none when no service matches |
| MediaRendererControl.ServiceHandle.constructor | libupnpp/control/mediarenderer.cxx:98-103 | a handle for the given kind and service |
| MediaRendererControl.MediaRenderer.constructor | libupnpp/control/mediarenderer.cxx:82-85 | the renderer keeps its description and holds no handle |
| MediaRendererControl.MediaRenderer.Release | libupnpp/control/mediarenderer.cxx:93-97 | a handle's weak reference expires |
| MediaRendererControl.MediaRenderer.Get | libupnpp/control/mediarenderer.cxx:93-192 | a live cached handle is returned unchanged. Otherwise one fresh handle is built for the first matching service and cached, or none is returned and the cache is unchanged |
| MediaRendererControl.MediaRenderer.HasOpenHome | libupnpp/control/mediarenderer.cxx:87-90 | true iff an OHProduct handle is cached or the description has an OHProduct service; other kinds' handles are untouched |

## Left out

- Threads, the two mutexes and the condition variable. Each wait of the event loop arrives as an input: its outcome (exit request, early wakeup, timeout, failure) and the clock reading. `loopWakeup` is the early-wakeup outcome, and a `shouldExit` from another thread is the exit outcome.
- Device.UpnpDevice.EventLoop: the source loops forever. The model stops when its sequence of wakeups runs out.
- Device.UpnpDevice.EventLoop: `count` is unbounded; the source's `int` would overflow after 2^31 passes.
- Device.UpnpDevice.EventLoop: `earlytime` starts at zero. The source leaves it uninitialised, but never reads it before setting it.
- The UPnP library calls:
  - `UpnpNotify` and `UpnpAcceptSubscription` are recorded as the call made. The status returned by `UpnpAcceptSubscription` is a parameter.
  - `setupWebServer`, `UpnpSendAdvertisement` and `start()` become the `started` parameter of the event loop.
  - `registerHandler` is a counter.
  - `UpnpUnRegisterRootDevice` is left out.
  - `LibUPnP::getLibUPnP` and its init status become the `libOk` parameter of the device constructor.
- The description files and the virtual directory set up by the device constructor, `path_getsimple` and `path_getfather`: file serving, not dispatch logic.
- EventLoop.LongDiffMs: the `long` arithmetic of `timespec_diffms` is unbounded in the model. With a 64-bit `time_t` it cannot overflow for real clock readings; only its conversion to `int` is modelled.
- `timespec_addnanos` is not part of this model. It is taken to be normalising addition of a non-negative amount.
- `clock_gettime` and the gettimeofday fallback: the clock reading is an input.
- The IXML library is replaced by an abstract tree. Node memory, `ixmlPrintNode` and list freeing are left out, and so are logging and the out-of-memory branches of the constructors.
- `stringToBool` is not part of this model; `GetBool` takes it as a parameter.
- `Atoi`: reads leading blanks, a sign and decimal digits, with no limit on the value. C's `atoi` overflows outside the `int` range, and `i2s` formats only `int` values.
- `getName` (soaphelp.cxx:124-127, 250-253), `getServiceType`, `getServiceId` and `UpnpDevice::ok`: each returns a field, which the model reads directly.
- The header that declares `buildSoapBody`'s default argument is not part of this model. The callback is modelled as building a response (`isResponse` true).
- Action routines are functions of the action name and the decoded arguments, returning a status and the pairs they append. Their effects on the service's own state are left out.
- Device.UpnpDevice.Callback: a subscription to a service that reports no variable passes `&cnames[0]` of an empty vector, which is undefined in C++. The same happens when the name and value vectors differ in size: `vectorstoargslists` refuses them and leaves its lists empty. In both cases the model records an accept call with empty lists.
- Device.UpnpDevice.NotifyEvent: when the name and value vectors differ in size, `vectorstoargslists` refuses them and `UpnpNotify` still receives `&cnames[0]` of empty vectors, which is undefined in C++. The model records a notification with empty lists. The event loop's polling pass (`PollServices`, `OneWakeup`, `EventLoop`) reaches this for any service that reports vectors of different sizes.
- The service-type tests (`isRDCService` and the others) and the accessor classes (`RenderingControl`, `AVTransport`, ...) are not part of this model. The tests are a parameter, and an accessor is a handle naming its kind and service.
- `std::weak_ptr` lifetime: a cached handle stays live until `Release` is called for its kind.
- `UPnPDeviceDirectory::traverse` (discovery) is replaced by the sequence of (device, service) visits it would make.
- MediaRendererControl.GetDeviceDescs: the appended descriptions come in the unordered map's iteration order, which the model leaves open.
- `libupnpp/control/service.hxx` and `libupnpp/control/device.cxx`: declarations and a description holder with no logic.

## Findings

| source | as written | input that shows it | evidently intended | confidence | as-written member | corrected member |
|---|---|---|---|---|---|---|
| libupnpp/soaphelp.cxx:339 | The guard after reading a property wrapper's name tests `cld`, which line 326 already found non-NULL, so it never fires. The variable name then read from the wrapper's first child at line 346 is never checked. For a wrapper without a named child, line 362 builds the map key from a NULL `char*`, which is undefined behaviour | a property set whose wrapper has no variable element: `<e:propertyset><e:property/></e:propertyset>` (lemma SoapHelp.EmptyPropertyWrapper) | reject the property set, as `SoapIncoming::decode` does for a nameless argument (lines 98-104); proved of the corrected decoder by SoapHelp.PropertySetRules | not executed | SoapHelp.PropertyEntryAsWritten | SoapHelp.DecodePropertySet |
