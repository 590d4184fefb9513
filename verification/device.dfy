/** The device side of the library: a process-wide registry from UDN to
    device, each device's service table (a map from service id to service
    plus the ids in the order the services were added), its action dispatch
    table, the single callback through which the UPnP library delivers
    action, state-variable and subscription requests, and the event loop that
    polls the services and sends their changed state.

    Calls into the UPnP library are not modelled as such: UpnpNotify and
    UpnpAcceptSubscription become records of the call made (for
    UpnpAcceptSubscription, the status it returns is a parameter), the
    library's handler registration becomes a counter. What a service reports
    when asked (its getEventData override) is an EventSource parameter; in
    the event loop, a trace of them indexed by pass and by poll. */
module Device {
  import opened Common
  import opened Ixml
  import opened SoapHelp
  import opened EventLoop

  /** UPNP_E_SUCCESS and UPNP_E_INVALID_PARAM of the UPnP library. */
  const Success: int := 0
  const InvalidParam: int := -101

  // ---------------------------------------------------------------------
  // Event data and the argument lists passed to the library

  /** What getEventData reports: its return value and the two vectors it
      fills. */
  datatype EventData = EventData(ok: bool, names: seq<string>, values: seq<string>)

  /** The services' getEventData(all, ...) overrides. */
  type EventSource = (UpnpService, bool) -> EventData

  /** What the services report during one polling pass: the j-th poll of
      the pass sees the overrides as `ev(j)`, so a service listed twice may
      report its changes at its first poll and nothing at its second. */
  type PassSource = nat -> EventSource

  /** What the services report pass after pass: polling pass p of the
      event loop sees them as `evs(p)`, so a service may report changed
      variables on one pass and nothing on the next. */
  type EventTrace = nat -> PassSource

  /** UpnpService::getEventData as the base class defines it: success, with
      nothing to report. */
  function DefaultEventData(all: bool): (d: EventData)
    ensures d.ok && d.names == [] && d.values == []
  {
    EventData(true, [], [])
  }

  /** Names and quoted values as handed to the library, and whether
      vectorstoargslists accepted its input. */
  datatype ArgLists = ArgLists(ok: bool, names: seq<string>, values: seq<string>)

  function QuoteAll(vs: seq<string>): (qs: seq<string>)
    ensures |qs| == |vs|
  {
    seq(|vs|, i requires 0 <= i < |vs| => Quoted(vs[i]))
  }

  /** vectorstoargslists: vectors of different sizes are refused and the
      output lists stay empty; otherwise the names are passed as they are and
      every value is XML-quoted. */
  function ArgsFor(names: seq<string>, values: seq<string>): (a: ArgLists) {
    if |names| != |values| then ArgLists(false, [], [])
    else ArgLists(true, names, QuoteAll(values))
  }

  /** What a subscriber or event receiver gets back by unquoting is exactly
      what the service reported; mismatched vectors send no variable at all. */
  lemma ArgsForRoundTrip(names: seq<string>, values: seq<string>)
    ensures ArgsFor(names, values).ok <==> |names| == |values|
    ensures ArgsFor(names, values).ok ==>
      && ArgsFor(names, values).names == names
      && |ArgsFor(names, values).values| == |values|
      && forall i :: 0 <= i < |values| ==> Unquoted(ArgsFor(names, values).values[i]) == values[i]
    ensures !ArgsFor(names, values).ok ==>
      ArgsFor(names, values).names == [] && ArgsFor(names, values).values == []
  {
    if |names| == |values| {
      forall i | 0 <= i < |values|
        ensures Unquoted(ArgsFor(names, values).values[i]) == values[i]
      {
        QuoteRoundTrip(values[i]);
      }
    }
  }

  /** vectorstoargslists. */
  method VectorsToArgsLists(names: seq<string>, values: seq<string>) returns (r: ArgLists)
    ensures r == ArgsFor(names, values)
  {
    if |names| != |values| {
      return ArgLists(false, [], []);
    }
    var cnames: seq<string> := [];
    var qvalues: seq<string> := [];
    for i := 0 to |values|
      invariant cnames == names[..i]
      invariant qvalues == QuoteAll(values[..i])
    {
      cnames := cnames + [names[i]];
      var q := XmlQuote(values[i]);
      qvalues := qvalues + [q];
    }
    assert names[..|values|] == names && values[..|values|] == values;
    r := ArgLists(true, cnames, qvalues);
  }

  // ---------------------------------------------------------------------
  // Calls made into the UPnP library

  /** An UpnpNotify call: device, service, variable names and values. */
  datatype NotifyCall = NotifyCall(deviceId: string, serviceId: string, names: seq<string>, values: seq<string>)

  /** An UpnpAcceptSubscription call: device, service, subscription id and
      the initial variable names and values. */
  datatype AcceptCall = AcceptCall(udn: string, serviceId: string, sid: string, names: seq<string>, values: seq<string>)

  /** notifyEvent: nothing is sent for an empty name list; otherwise the
      lists built by vectorstoargslists are sent, whatever it returned. */
  function NotifyFor(deviceId: string, serviceId: string, names: seq<string>, values: seq<string>): (c: Option<NotifyCall>) {
    if names == [] then None
    else
      var a := ArgsFor(names, values);
      Some(NotifyCall(deviceId, serviceId, a.names, a.values))
  }

  /** Every id of the list has a service. */
  predicate IdsIn(ids: seq<string>, servicemap: map<string, UpnpService>) {
    forall k :: 0 <= k < |ids| ==> ids[k] in servicemap
  }

  /** What polling one service sends: nothing when its getEventData fails or
      reports no variable, otherwise the notification of what it reported. */
  function PollService(deviceId: string, serv: UpnpService, id: string, all: bool, ev: EventSource): (cs: seq<NotifyCall>) {
    var d := ev(serv, all);
    if !d.ok || d.names == [] then []
    else [NotifyFor(deviceId, id, d.names, d.values).value]
  }

  /** The notifications of one polling pass over the ids, in their order;
      the service listed at position j is polled as `ev(j)`. */
  function PassCalls(deviceId: string, servicemap: map<string, UpnpService>, ids: seq<string>,
                     all: bool, ev: PassSource): (cs: seq<NotifyCall>)
    requires IdsIn(ids, servicemap)
    decreases |ids|
  {
    if ids == [] then []
    else
      var last := ids[|ids| - 1];
      PassCalls(deviceId, servicemap, ids[..|ids| - 1], all, ev)
        + PollService(deviceId, servicemap[last], last, all, ev(|ids| - 1))
  }

  /** The notifications of successive passes with the given full-state
      flags, the first of them being pass number p. */
  function Notifications(deviceId: string, servicemap: map<string, UpnpService>, ids: seq<string>,
                         flags: seq<bool>, evs: EventTrace, p: nat): (cs: seq<NotifyCall>)
    requires IdsIn(ids, servicemap)
    decreases |flags|
  {
    if flags == [] then []
    else PassCalls(deviceId, servicemap, ids, flags[0], evs(p))
         + Notifications(deviceId, servicemap, ids, flags[1..], evs, p + 1)
  }

  /** `c` is the notification of what the service `serv`, under id `id`,
      reported: success and at least one variable. */
  predicate ReportedBy(c: NotifyCall, deviceId: string, serv: UpnpService, id: string, all: bool, ev: EventSource) {
    var d := ev(serv, all);
    d.ok && d.names != [] && c.serviceId == id && Some(c) == NotifyFor(deviceId, id, d.names, d.values)
  }

  /** Each notification of a pass comes from a service of the list that
      reported success and at least one variable, carries that service's id
      and the device's id, and holds what the service reported. */
  lemma {:induction false} PassCallsSound(deviceId: string, servicemap: map<string, UpnpService>,
                                          ids: seq<string>, all: bool, ev: PassSource)
    requires IdsIn(ids, servicemap)
    ensures |PassCalls(deviceId, servicemap, ids, all, ev)| <= |ids|
    ensures forall c :: c in PassCalls(deviceId, servicemap, ids, all, ev) ==>
      exists j :: 0 <= j < |ids| && ReportedBy(c, deviceId, servicemap[ids[j]], ids[j], all, ev(j))
    decreases |ids|
  {
    if ids != [] {
      var init := ids[..|ids| - 1];
      PassCallsSound(deviceId, servicemap, init, all, ev);
      forall c | c in PassCalls(deviceId, servicemap, ids, all, ev)
        ensures exists j :: 0 <= j < |ids| && ReportedBy(c, deviceId, servicemap[ids[j]], ids[j], all, ev(j))
      {
        if c in PassCalls(deviceId, servicemap, init, all, ev) {
          var j :| 0 <= j < |init| && ReportedBy(c, deviceId, servicemap[init[j]], init[j], all, ev(j));
          assert ids[j] == init[j];
        } else {
          assert ids[|ids| - 1] == c.serviceId;
        }
      }
    }
  }

  /** When every service reports at least one variable, a pass sends one
      notification per id, in the order of the ids. */
  lemma {:induction false} PassCallsOrder(deviceId: string, servicemap: map<string, UpnpService>,
                                          ids: seq<string>, all: bool, ev: PassSource)
    requires IdsIn(ids, servicemap)
    requires forall k :: 0 <= k < |ids| ==> ev(k)(servicemap[ids[k]], all).ok && ev(k)(servicemap[ids[k]], all).names != []
    ensures |PassCalls(deviceId, servicemap, ids, all, ev)| == |ids|
    ensures forall k :: 0 <= k < |ids| ==>
      PassCalls(deviceId, servicemap, ids, all, ev)[k].serviceId == ids[k] &&
      PassCalls(deviceId, servicemap, ids, all, ev)[k].deviceId == deviceId
    decreases |ids|
  {
    if ids != [] {
      var init := ids[..|ids| - 1];
      PassCallsOrder(deviceId, servicemap, init, all, ev);
    }
  }

  /** The j-th poll of a pass over the ids reports success and at least
      one variable. */
  predicate Reports(servicemap: map<string, UpnpService>, ids: seq<string>, all: bool, ev: PassSource, j: nat) {
    && j < |ids| && ids[j] in servicemap
    && ev(j)(servicemap[ids[j]], all).ok && ev(j)(servicemap[ids[j]], all).names != []
  }

  /** How many polls of a pass over the ids report something. */
  function Reporting(servicemap: map<string, UpnpService>, ids: seq<string>, all: bool, ev: PassSource): (n: nat)
    ensures n <= |ids|
    decreases |ids|
  {
    if ids == [] then 0
    else Reporting(servicemap, ids[..|ids| - 1], all, ev) + (if Reports(servicemap, ids, all, ev, |ids| - 1) then 1 else 0)
  }

  /** A pass sends one notification per reporting poll and no other, in
      the order of the polls: the poll at position j, when it reports, gives
      the notification that follows those of the reporting polls before it. */
  lemma {:induction false} PassCallsComplete(deviceId: string, servicemap: map<string, UpnpService>,
                                             ids: seq<string>, all: bool, ev: PassSource)
    requires IdsIn(ids, servicemap)
    ensures |PassCalls(deviceId, servicemap, ids, all, ev)| == Reporting(servicemap, ids, all, ev)
    ensures forall j :: 0 <= j < |ids| && Reports(servicemap, ids, all, ev, j) ==>
      && Reporting(servicemap, ids[..j], all, ev) < |PassCalls(deviceId, servicemap, ids, all, ev)|
      && PassCalls(deviceId, servicemap, ids, all, ev)[Reporting(servicemap, ids[..j], all, ev)]
         == NotifyFor(deviceId, ids[j], ev(j)(servicemap[ids[j]], all).names, ev(j)(servicemap[ids[j]], all).values).value
    decreases |ids|
  {
    if ids != [] {
      var init := ids[..|ids| - 1];
      PassCallsComplete(deviceId, servicemap, init, all, ev);
      var cs := PassCalls(deviceId, servicemap, ids, all, ev);
      var head := PassCalls(deviceId, servicemap, init, all, ev);
      assert cs == head + PollService(deviceId, servicemap[ids[|ids| - 1]], ids[|ids| - 1], all, ev(|ids| - 1));
      forall j | 0 <= j < |ids| && Reports(servicemap, ids, all, ev, j)
        ensures && Reporting(servicemap, ids[..j], all, ev) < |cs|
                && cs[Reporting(servicemap, ids[..j], all, ev)]
                   == NotifyFor(deviceId, ids[j], ev(j)(servicemap[ids[j]], all).names, ev(j)(servicemap[ids[j]], all).values).value
      {
        if j < |init| {
          assert init[..j] == ids[..j];
          assert Reports(servicemap, init, all, ev, j);
        } else {
          assert ids[..j] == init;
        }
      }
    }
  }

  /** A service listed twice is polled twice in a pass: when it reports its
      changes at the first poll and nothing at the second, the pass sends a
      single notification. */
  lemma RepeatedIdOnce(deviceId: string, servicemap: map<string, UpnpService>, id: string, all: bool, ev: PassSource)
    requires id in servicemap
    requires ev(0)(servicemap[id], all).ok && ev(0)(servicemap[id], all).names != []
    requires ev(1)(servicemap[id], all).names == []
    ensures PassCalls(deviceId, servicemap, [id, id], all, ev)
         == [NotifyFor(deviceId, id, ev(0)(servicemap[id], all).names, ev(0)(servicemap[id], all).values).value]
  {
    var ids := [id, id];
    assert ids[..1] == [id] && [id][..0] == [];
    assert PassCalls(deviceId, servicemap, [id], all, ev)
        == PollService(deviceId, servicemap[id], id, all, ev(0));
    assert PassCalls(deviceId, servicemap, ids, all, ev)
        == PassCalls(deviceId, servicemap, [id], all, ev) + PollService(deviceId, servicemap[id], id, all, ev(1));
  }

  /** Services that keep the default getEventData never cause a
      notification, on any pass. */
  lemma {:induction false} DefaultServicesSilent(deviceId: string, servicemap: map<string, UpnpService>,
                                                 ids: seq<string>, flags: seq<bool>, evs: EventTrace, p: nat)
    requires IdsIn(ids, servicemap)
    requires forall q: nat, j: nat, s: UpnpService, all: bool :: evs(q)(j)(s, all) == DefaultEventData(all)
    ensures Notifications(deviceId, servicemap, ids, flags, evs, p) == []
    decreases |flags|
  {
    if flags != [] {
      PassSilent(deviceId, servicemap, ids, flags[0], evs(p));
      DefaultServicesSilent(deviceId, servicemap, ids, flags[1..], evs, p + 1);
    }
  }

  /** `c` was reported by a service of the list at one of the passes
      with the given flags, the first of them being pass number p. */
  predicate SentAtPass(c: NotifyCall, deviceId: string, servicemap: map<string, UpnpService>,
                       ids: seq<string>, flags: seq<bool>, evs: EventTrace, p: nat)
    requires IdsIn(ids, servicemap)
  {
    exists k, j :: 0 <= k < |flags| && 0 <= j < |ids| &&
                   ReportedBy(c, deviceId, servicemap[ids[j]], ids[j], flags[k], evs(p + k)(j))
  }

  /** Over a run, every notification was reported by a service of the
      list at the pass that sent it, with that pass's full-state flag and
      what the services reported at that pass. */
  lemma {:induction false} NotificationsSound(deviceId: string, servicemap: map<string, UpnpService>,
                                              ids: seq<string>, flags: seq<bool>, evs: EventTrace, p: nat)
    requires IdsIn(ids, servicemap)
    ensures forall c :: c in Notifications(deviceId, servicemap, ids, flags, evs, p) ==>
      SentAtPass(c, deviceId, servicemap, ids, flags, evs, p)
    decreases |flags|
  {
    if flags != [] {
      NotificationsSound(deviceId, servicemap, ids, flags[1..], evs, p + 1);
      PassCallsSound(deviceId, servicemap, ids, flags[0], evs(p));
      forall c | c in Notifications(deviceId, servicemap, ids, flags, evs, p)
        ensures SentAtPass(c, deviceId, servicemap, ids, flags, evs, p)
      {
        if c in PassCalls(deviceId, servicemap, ids, flags[0], evs(p)) {
          SentAtFirstPass(c, deviceId, servicemap, ids, flags, evs, p);
        } else {
          assert c in Notifications(deviceId, servicemap, ids, flags[1..], evs, p + 1);
          SentAtLaterPass(c, deviceId, servicemap, ids, flags, evs, p);
        }
      }
    }
  }

  lemma SentAtFirstPass(c: NotifyCall, deviceId: string, servicemap: map<string, UpnpService>,
                        ids: seq<string>, flags: seq<bool>, evs: EventTrace, p: nat)
    requires IdsIn(ids, servicemap) && flags != []
    requires exists j :: 0 <= j < |ids| && ReportedBy(c, deviceId, servicemap[ids[j]], ids[j], flags[0], evs(p)(j))
    ensures SentAtPass(c, deviceId, servicemap, ids, flags, evs, p)
  {
    var j :| 0 <= j < |ids| && ReportedBy(c, deviceId, servicemap[ids[j]], ids[j], flags[0], evs(p)(j));
    assert ReportedBy(c, deviceId, servicemap[ids[j]], ids[j], flags[0], evs(p + 0)(j));
  }

  lemma SentAtLaterPass(c: NotifyCall, deviceId: string, servicemap: map<string, UpnpService>,
                        ids: seq<string>, flags: seq<bool>, evs: EventTrace, p: nat)
    requires IdsIn(ids, servicemap) && flags != []
    requires SentAtPass(c, deviceId, servicemap, ids, flags[1..], evs, p + 1)
    ensures SentAtPass(c, deviceId, servicemap, ids, flags, evs, p)
  {
    var k, j :| 0 <= k < |flags[1..]| && 0 <= j < |ids| &&
      ReportedBy(c, deviceId, servicemap[ids[j]], ids[j], flags[1..][k], evs(p + 1 + k)(j));
    assert flags[1..][k] == flags[k + 1] && p + 1 + k == p + (k + 1);
  }

  lemma {:induction false} PassSilent(deviceId: string, servicemap: map<string, UpnpService>,
                                      ids: seq<string>, all: bool, ev: PassSource)
    requires IdsIn(ids, servicemap)
    requires forall j: nat, s: UpnpService, all: bool :: ev(j)(s, all) == DefaultEventData(all)
    ensures PassCalls(deviceId, servicemap, ids, all, ev) == []
    decreases |ids|
  {
    if ids != [] {
      PassSilent(deviceId, servicemap, ids[..|ids| - 1], all, ev);
      assert ev(|ids| - 1)(servicemap[ids[|ids| - 1]], all) == DefaultEventData(all);
    }
  }

  lemma NotificationsCons(deviceId: string, servicemap: map<string, UpnpService>, ids: seq<string>,
                          all: bool, rest: seq<bool>, evs: EventTrace, p: nat)
    requires IdsIn(ids, servicemap)
    ensures Notifications(deviceId, servicemap, ids, [all] + rest, evs, p)
         == PassCalls(deviceId, servicemap, ids, all, evs(p)) + Notifications(deviceId, servicemap, ids, rest, evs, p + 1)
  {
    assert ([all] + rest)[1..] == rest;
  }

  // ---------------------------------------------------------------------
  // Requests delivered by the library

  datatype Event =
    | ActionRequest(udn: string, serviceId: string, actionName: string, request: Node)
    | StateVarRequest(udn: string, varName: string)
    | SubscriptionRequest(udn: string, serviceId: string, sid: string)
    | OtherEvent(code: int)

  /** The device a request is for; sCallBack knows no other event type. */
  function EventUdn(ev: Event): (u: Option<string>) {
    match ev
    case ActionRequest(udn, _, _, _) => Some(udn)
    case StateVarRequest(udn, _) => Some(udn)
    case SubscriptionRequest(udn, _, _) => Some(udn)
    case OtherEvent(_) => None
  }

  /** What an action routine does: its status, and the argument pairs it
      appended to the outgoing data, in order. */
  datatype HandlerReply = HandlerReply(status: int, args: seq<(string, string)>)

  /** An action routine, called with the action name and the decoded
      arguments. */
  type ActionHandler = (string, map<string, string>) -> HandlerReply

  /** The key an action routine is stored under. */
  function ActionKey(actName: string, serviceId: string): (k: string) {
    actName + serviceId
  }

  /** The callback's status, the ActionResult document it set, if any, and
      the UpnpAcceptSubscription call it made, if any. */
  datatype CallbackResult = CallbackResult(status: int, actionResult: Option<Node>, accepted: Option<AcceptCall>)

  const Refused: CallbackResult := CallbackResult(InvalidParam, None, None)

  /** UpnpDevice::Internal::callBack, as a function of the device's tables;
      `acceptStatus` is what UpnpAcceptSubscription returns. */
  function Respond(servicemap: map<string, UpnpService>, calls: map<string, ActionHandler>,
                   ev: Event, evsrc: EventSource, acceptStatus: int): (r: CallbackResult)
    ensures r.actionResult.Some? ==> ev.ActionRequest? && r.status == Success
    ensures r.accepted.Some? ==> ev.SubscriptionRequest? && r.status == acceptStatus
    ensures ev.StateVarRequest? || ev.OtherEvent? ==> r == Refused
  {
    match ev
    case ActionRequest(_, sid, act, req) =>
      if sid !in servicemap || ActionKey(act, sid) !in calls then Refused
      else
        var d := DecodeDoc(req, map[], ArgEntry);
        if !d.ok then Refused
        else
          var reply := calls[ActionKey(act, sid)](act, d.args);
          if reply.status != Success then CallbackResult(reply.status, None, None)
          else CallbackResult(Success, Some(SoapBody(servicemap[sid].serviceType, act, true, reply.args)), None)
    case SubscriptionRequest(udn, sid, subId) =>
      if sid !in servicemap then Refused
      else
        var d := evsrc(servicemap[sid], true);
        if !d.ok then Refused
        else
          var a := ArgsFor(d.names, d.values);
          CallbackResult(acceptStatus, None, Some(AcceptCall(udn, sid, subId, a.names, a.values)))
    case StateVarRequest(_, _) => Refused
    case OtherEvent(_) => Refused
  }

  /** The rules for an action request: an unknown service, no routine for
      the action on that service, or arguments that do not decode give
      UPNP_E_INVALID_PARAM; a failing routine's status is returned with no
      result; a successful one gets a response document named after the
      action with "Response" appended, in the service's namespace, that
      decodes back to exactly the pairs the routine produced. */
  lemma ActionRules(servicemap: map<string, UpnpService>, calls: map<string, ActionHandler>,
                    ev: Event, evsrc: EventSource, acceptStatus: int)
    requires ev.ActionRequest?
    ensures var r := Respond(servicemap, calls, ev, evsrc, acceptStatus);
      && (ev.serviceId !in servicemap ==> r == Refused)
      && (ActionKey(ev.actionName, ev.serviceId) !in calls ==> r == Refused)
      && (!DecodeDoc(ev.request, map[], ArgEntry).ok ==> r == Refused)
      && (ev.serviceId in servicemap && ActionKey(ev.actionName, ev.serviceId) in calls &&
          DecodeDoc(ev.request, map[], ArgEntry).ok ==>
            var reply := calls[ActionKey(ev.actionName, ev.serviceId)](ev.actionName, DecodeDoc(ev.request, map[], ArgEntry).args);
            && (reply.status != Success ==> r == CallbackResult(reply.status, None, None))
            && (reply.status == Success ==>
                  && r.status == Success && r.actionResult.Some?
                  && FirstChild(r.actionResult.value).Some?
                  && FirstChild(r.actionResult.value).value.name == Some("u:" + ev.actionName + "Response")
                  && FirstChild(r.actionResult.value).value.namespaceUri == servicemap[ev.serviceId].serviceType
                  && DecodeDoc(r.actionResult.value, map[], ArgEntry) == Decoded(true, Insert(map[], reply.args))))
  {
    if ev.serviceId in servicemap && ActionKey(ev.actionName, ev.serviceId) in calls {
      var d := DecodeDoc(ev.request, map[], ArgEntry);
      if d.ok {
        var reply := calls[ActionKey(ev.actionName, ev.serviceId)](ev.actionName, d.args);
        SoapBodyRoundTrip(servicemap[ev.serviceId].serviceType, ev.actionName, true, reply.args, map[]);
      }
    }
  }

  /** The rules for a subscription request: the service is always asked for
      its full state; an unknown service or a failing getEventData give
      UPNP_E_INVALID_PARAM; otherwise the subscription is accepted with the
      reported variables, their values quoted, and the status of that call
      is returned. */
  lemma SubscriptionRules(servicemap: map<string, UpnpService>, calls: map<string, ActionHandler>,
                          ev: Event, evsrc: EventSource, acceptStatus: int)
    requires ev.SubscriptionRequest?
    ensures var r := Respond(servicemap, calls, ev, evsrc, acceptStatus);
      && (ev.serviceId !in servicemap ==> r == Refused)
      && (ev.serviceId in servicemap && !evsrc(servicemap[ev.serviceId], true).ok ==> r == Refused)
      && (ev.serviceId in servicemap && evsrc(servicemap[ev.serviceId], true).ok ==>
            var d := evsrc(servicemap[ev.serviceId], true);
            && r.status == acceptStatus && r.actionResult.None? && r.accepted.Some?
            && r.accepted.value.udn == ev.udn && r.accepted.value.serviceId == ev.serviceId
            && r.accepted.value.sid == ev.sid
            && (|d.names| == |d.values| ==>
                  && r.accepted.value.names == d.names
                  && |r.accepted.value.values| == |d.values|
                  && forall i :: 0 <= i < |d.values| ==> Unquoted(r.accepted.value.values[i]) == d.values[i]))
  {
    if ev.serviceId in servicemap {
      var d := evsrc(servicemap[ev.serviceId], true);
      ArgsForRoundTrip(d.names, d.values);
    }
  }

  /** Repeated addActionMapping calls: the routine stored under a key is
      the one of the last registration with that key. */
  lemma LastRegistrationWins(calls0: map<string, ActionHandler>, regs: seq<(string, ActionHandler)>, i: nat)
    requires i < |regs|
    requires forall j :: i < j < |regs| ==> regs[j].0 != regs[i].0
    ensures regs[i].0 in Insert(calls0, regs) && Insert(calls0, regs)[regs[i].0] == regs[i].1
  {
    LastValueIsLast(regs, i);
    InsertLookup(calls0, regs, regs[i].0);
  }

  // ---------------------------------------------------------------------
  // Services, devices and the registry

  class UpnpService {
    const serviceType: string
    const serviceId: string

    /** The service registers itself with its device. */
    constructor (stp: string, sid: string, dev: UpnpDevice)
      modifies dev
      ensures serviceType == stp && serviceId == sid
      ensures dev.servicemap == old(dev.servicemap)[sid := this]
      ensures dev.serviceids == old(dev.serviceids) + [sid]
      ensures dev.calls == old(dev.calls) && dev.needExit == old(dev.needExit)
      ensures old(dev.Valid()) ==> dev.Valid()
    {
      serviceType := stp;
      serviceId := sid;
      new;
      dev.AddService(this, sid);
    }
  }

  class DeviceRegistry {
    /** The static UDN -> device map. */
    var devices: map<string, UpnpDevice>
    /** How many times the three library handlers were registered. */
    var handlerRegistrations: nat

    constructor ()
      ensures devices == map[] && handlerRegistrations == 0
    {
      devices := map[];
      handlerRegistrations := 0;
    }

    /** sCallBack: route a request to the device it names. */
    method SCallBack(ev: Event, evsrc: EventSource, acceptStatus: int) returns (r: CallbackResult)
      ensures EventUdn(ev).None? ==> r == Refused
      ensures EventUdn(ev).Some? && EventUdn(ev).value !in devices ==> r == Refused
      ensures EventUdn(ev).Some? && EventUdn(ev).value in devices ==>
        var dev := devices[EventUdn(ev).value];
        r == Respond(dev.servicemap, dev.calls, ev, evsrc, acceptStatus)
    {
      var udn := EventUdn(ev);
      if udn.None? {
        return Refused;
      }
      if udn.value !in devices {
        return Refused;
      }
      r := devices[udn.value].Callback(ev, evsrc, acceptStatus);
    }
  }

  class UpnpDevice {
    const registry: DeviceRegistry
    const deviceId: string
    /** Whether the UPnP library could be initialised. */
    const lib: bool
    var servicemap: map<string, UpnpService>
    var serviceids: seq<string>
    var calls: map<string, ActionHandler>
    var needExit: bool

    /** The id list and the map name the same services. */
    predicate Valid()
      reads this
    {
      && IdsIn(serviceids, servicemap)
      && forall id :: id in servicemap ==> id in serviceids
    }

    /** The registry part of the constructor: when the library is usable,
        the handlers are registered if no device was registered yet, and
        the device is entered under its id, replacing any other. */
    constructor (reg: DeviceRegistry, id: string, libOk: bool)
      modifies reg
      ensures registry == reg && deviceId == id && lib == libOk && !needExit
      ensures servicemap == map[] && serviceids == [] && calls == map[]
      ensures libOk ==> reg.devices == old(reg.devices)[id := this]
      ensures libOk ==> reg.handlerRegistrations ==
                        old(reg.handlerRegistrations) + (if old(reg.devices) == map[] then 1 else 0)
      ensures !libOk ==> reg.devices == old(reg.devices) && reg.handlerRegistrations == old(reg.handlerRegistrations)
      ensures Valid()
    {
      registry := reg;
      deviceId := id;
      lib := libOk;
      needExit := false;
      servicemap := map[];
      serviceids := [];
      calls := map[];
      new;
      if libOk {
        if reg.devices == map[] {
          reg.handlerRegistrations := reg.handlerRegistrations + 1;
        }
        reg.devices := reg.devices[id := this];
      }
    }

    /** The registry part of the destructor: whatever device is registered
        under this device's id is removed. */
    method Destroy()
      modifies registry
      ensures registry.devices == old(registry.devices) - {deviceId}
      ensures registry.handlerRegistrations == old(registry.handlerRegistrations)
    {
      if deviceId in registry.devices {
        registry.devices := registry.devices - {deviceId};
      }
    }

    /** addService: the map entry is set and the id appended, so an id added
        twice is polled twice; the dispatch table is untouched. */
    method AddService(serv: UpnpService, serviceId: string)
      modifies this`servicemap, this`serviceids
      ensures servicemap == old(servicemap)[serviceId := serv]
      ensures serviceids == old(serviceids) + [serviceId]
      ensures old(Valid()) ==> Valid()
    {
      servicemap := servicemap[serviceId := serv];
      serviceids := serviceids + [serviceId];
    }

    /** addActionMapping: the routine is stored under the action name
        followed by the service id, replacing any earlier one. */
    method AddActionMapping(serv: UpnpService, actName: string, fun: ActionHandler)
      modifies this`calls
      ensures calls == old(calls)[ActionKey(actName, serv.serviceId) := fun]
    {
      calls := calls[actName + serv.serviceId := fun];
    }

    /** shouldExit. */
    method ShouldExit()
      modifies this`needExit
      ensures needExit
    {
      needExit := true;
    }

    /** Internal::callBack. */
    method Callback(ev: Event, evsrc: EventSource, acceptStatus: int) returns (r: CallbackResult)
      ensures r == Respond(servicemap, calls, ev, evsrc, acceptStatus)
    {
      match ev
      case ActionRequest(_, sid, act, req) =>
        if sid !in servicemap {
          return Refused;
        }
        var dt := new SoapOutgoing(servicemap[sid].serviceType, act);
        if act + sid !in calls {
          return Refused;
        }
        var sc := new SoapIncoming();
        var ok := sc.Decode(act, req);
        if !ok {
          return Refused;
        }
        // The routine's appends to the outgoing data.
        var reply := calls[act + sid](sc.name, sc.args);
        for k := 0 to |reply.args|
          invariant dt.data == reply.args[..k]
          invariant dt.serviceType == servicemap[sid].serviceType && dt.name == act
        {
          dt.AddArg(reply.args[k].0, reply.args[k].1);
        }
        if reply.status != Success {
          return CallbackResult(reply.status, None, None);
        }
        assert reply.args[..|reply.args|] == reply.args;
        var doc := dt.BuildSoapBody(true);
        return CallbackResult(Success, Some(doc), None);
      case SubscriptionRequest(udn, sid, subId) =>
        if sid !in servicemap {
          return Refused;
        }
        var d := evsrc(servicemap[sid], true);
        if !d.ok {
          return Refused;
        }
        var a := VectorsToArgsLists(d.names, d.values);
        return CallbackResult(acceptStatus, None, Some(AcceptCall(udn, sid, subId, a.names, a.values)));
      case StateVarRequest(_, _) =>
        return Refused;
      case OtherEvent(_) =>
        return Refused;
    }

    /** Internal::notifyEvent. */
    method NotifyEvent(serviceId: string, names: seq<string>, values: seq<string>) returns (sent: Option<NotifyCall>)
      ensures sent == NotifyFor(deviceId, serviceId, names, values)
    {
      if names == [] {
        return None;
      }
      var a := VectorsToArgsLists(names, values);
      sent := Some(NotifyCall(deviceId, serviceId, a.names, a.values));
    }

    /** One polling pass of the event loop over the services, in id order. */
    method PollServices(all: bool, evsrc: PassSource) returns (sent: seq<NotifyCall>)
      requires Valid()
      ensures sent == PassCalls(deviceId, servicemap, serviceids, all, evsrc)
    {
      sent := [];
      for j := 0 to |serviceids|
        invariant sent == PassCalls(deviceId, servicemap, serviceids[..j], all, evsrc)
      {
        assert serviceids[..j + 1][..j] == serviceids[..j];
        var id := serviceids[j];
        var d := evsrc(j)(servicemap[id], all);
        if !d.ok || d.names == [] {
          continue;
        }
        var c := NotifyEvent(id, d.names, d.values);
        sent := sent + [c.value];
      }
      assert serviceids[..|serviceids|] == serviceids;
    }

    /** The branches eventloop takes after its wait returns: leave, skip to
        the next wait, or run a pass with the new variables. */
    static method DecideStep(needExit: bool, count: int, didearly: bool, earlytime: Timespec, w: Wake)
      returns (step: Step)
      requires Normal(w.now)
      ensures step == Decide(needExit, LoopState(count, didearly, earlytime), w)
    {
      var wkuptime := AddNanos(w.now, LoopWaitMs * 1000 * 1000);
      if needExit || w.result == Exit || w.result == Failed {
        return Stop;
      }
      var early := earlytime;
      var de := didearly;
      if w.result == Signalled {
        if de {
          var millis := DiffMs(early, wkuptime);
          if millis < LoopWaitMs {
            return Skip;
          } else {
            early := wkuptime;
          }
        } else {
          de := true;
          early := wkuptime;
        }
      } else {
        de := false;
      }
      var c := count + 1;
      var all := c != 0 && c % NLoopsToFull == 0;
      step := Process(LoopState(c, de, early), all);
    }

    /** One turn of eventloop after its wait returns: an Exit wakeup is a
        shouldExit() that came during the wait; then the loop leaves, skips
        to the next wait, or runs a polling pass. */
    method OneWakeup(w: Wake, st: LoopState, evsrc: PassSource) returns (step: Step, pass: seq<NotifyCall>)
      requires Valid() && Normal(w.now)
      modifies this`needExit
      ensures needExit == (old(needExit) || w.result == Exit)
      ensures step == Decide(needExit, st, w)
      ensures step.Process? ==> pass == PassCalls(deviceId, servicemap, serviceids, step.all, evsrc)
      ensures !step.Process? ==> pass == []
    {
      if w.result == Exit {
        ShouldExit();
      }
      step := DecideStep(needExit, st.count, st.didearly, st.earlytime, w);
      pass := [];
      if step.Process? {
        pass := PollServices(step.all, evsrc);
      }
    }

    /** eventloop, over the wakeups `wakes`; `started` is whether the web
        server and advertisement could be set up, and pass p polls the
        services as `evs(p)`. It returns the notifications sent. */
    method EventLoop(started: bool, wakes: seq<Wake>, evs: EventTrace) returns (sent: seq<NotifyCall>)
      requires Valid() && AllNormal(wakes)
      modifies this`needExit
      ensures !started ==> sent == [] && needExit == old(needExit)
      ensures started ==>
        var r := Run(old(needExit), Initial, wakes);
        needExit == r.needExit && sent == Notifications(deviceId, servicemap, serviceids, r.flags, evs, 0)
    {
      sent := [];
      if !started {
        return;
      }
      ghost var target := Run(needExit, Initial, wakes);
      var st := Initial;
      var passes: nat := 0;
      var i := 0;
      while i < |wakes|
        invariant 0 <= i <= |wakes|
        invariant Valid()
        invariant Run(needExit, st, wakes[i..]).needExit == target.needExit
        invariant sent + Notifications(deviceId, servicemap, serviceids, Run(needExit, st, wakes[i..]).flags, evs, passes)
                  == Notifications(deviceId, servicemap, serviceids, target.flags, evs, 0)
      {
        ghost var before := Run(needExit, st, wakes[i..]);
        RunStep(needExit, st, wakes, i);
        var step, pass := OneWakeup(wakes[i], st, evs(passes));
        if step.Stop? {
          return;
        }
        if step.Process? {
          ghost var after := Run(needExit, step.next, wakes[i + 1..]);
          NotificationsCons(deviceId, servicemap, serviceids, step.all, after.flags, evs, passes);
          ShiftPrefix(sent, pass, Notifications(deviceId, servicemap, serviceids, before.flags, evs, passes),
                      Notifications(deviceId, servicemap, serviceids, after.flags, evs, passes + 1),
                      Notifications(deviceId, servicemap, serviceids, target.flags, evs, 0));
          sent := sent + pass;
          st := step.next;
          passes := passes + 1;
        }
        i := i + 1;
      }
    }
  }
}
