/** The control-point view of a MediaRenderer device: recognising the device
    type whatever its version, collecting the renderers found in the device
    directory, and giving out one handle per kind of service, built from the
    first matching service of the description and cached while it is in use.

    The per-kind service type tests (isRDCService and the others) are a
    parameter; the directory traversal is the sequence of (device, service)
    pairs it would visit. */
module MediaRendererControl {
  import opened Common

  const DType: string := "urn:schemas-upnp-org:device:MediaRenderer:1"

  /** The part of DType compared: all but the ":1" version suffix. */
  const PrefixLen: int := |DType| - 2

  /** isMRDevice: the first PrefixLen characters of DType and of `st` (all
      of `st` when it is shorter) are compared. */
  function IsMRDevice(st: string): (b: bool)
    ensures b <==> |st| >= PrefixLen && st[..PrefixLen] == DType[..PrefixLen]
  {
    var n := if |st| < PrefixLen then |st| else PrefixLen;
    DType[..PrefixLen] == st[..n]
  }

  /** The version, or anything else after the prefix, is ignored; a
      different device type is not accepted. */
  lemma MRDeviceVersions(suffix: string)
    ensures IsMRDevice(DType[..PrefixLen] + suffix)
    ensures IsMRDevice(DType)
    ensures IsMRDevice("urn:schemas-upnp-org:device:MediaRenderer:2")
    ensures !IsMRDevice("urn:schemas-upnp-org:device:MediaServer:1")
    ensures !IsMRDevice(DType[..PrefixLen - 1])
  {
    assert (DType[..PrefixLen] + suffix)[..PrefixLen] == DType[..PrefixLen];
    assert "urn:schemas-upnp-org:device:MediaRenderer:2"[..PrefixLen] == DType[..PrefixLen];
    assert "urn:schemas-upnp-org:device:MediaServer:1"[33] != DType[33];
  }

  datatype ServiceDesc = ServiceDesc(serviceType: string, serviceId: string)
  datatype DeviceDesc = DeviceDesc(udn: string, friendlyName: string, services: seq<ServiceDesc>)

  /** The service interfaces a renderer hands out. */
  datatype Kind = RenderingControl | AVTransport | OHProduct | OHPlaylist | OHTime | OHVolume

  /** isRDCService, isAVTService, isOHPrService, isOHPlService,
      isOHTMService and isOHVLService, one per kind. */
  type TypeTest = (Kind, string) -> bool

  // ---------------------------------------------------------------------
  // Collecting renderers

  /** The visitor's condition: the service is a RenderingControl or an
      OpenHome Product, and no friendly name was asked for or the device
      has that one. */
  predicate Accepts(isType: TypeTest, friendlyName: string, device: DeviceDesc, service: ServiceDesc) {
    && (isType(RenderingControl, service.serviceType) || isType(OHProduct, service.serviceType))
    && (friendlyName == "" || friendlyName == device.friendlyName)
  }

  /** MDAccum: store the device under its UDN when the visit is accepted;
      always ask the traversal to go on. */
  method MDAccum(out: map<string, DeviceDesc>, friendlyName: string, device: DeviceDesc,
                 service: ServiceDesc, isType: TypeTest)
    returns (cont: bool, out': map<string, DeviceDesc>)
    ensures cont
    ensures out' == AccumStep(out, friendlyName, (device, service), isType)
  {
    out' := out;
    if (isType(RenderingControl, service.serviceType) || isType(OHProduct, service.serviceType))
       && (friendlyName == "" || friendlyName == device.friendlyName) {
      out' := out'[device.udn := device];
    }
    cont := true;
  }

  /** One visit: an accepted visit stores its device under the device's
      UDN; every other UDN keeps its entry, or its absence, and a visit that
      is not accepted changes nothing. */
  function AccumStep(out: map<string, DeviceDesc>, friendlyName: string,
                     visit: (DeviceDesc, ServiceDesc), isType: TypeTest): (out': map<string, DeviceDesc>)
    ensures Accepts(isType, friendlyName, visit.0, visit.1) ==>
      visit.0.udn in out' && out'[visit.0.udn] == visit.0
    ensures forall u :: u != visit.0.udn ==> (u in out' <==> u in out)
    ensures forall u :: u in out && u != visit.0.udn ==> out'[u] == out[u]
    ensures !Accepts(isType, friendlyName, visit.0, visit.1) ==> out' == out
  {
    if Accepts(isType, friendlyName, visit.0, visit.1) then out[visit.0.udn := visit.0] else out
  }

  /** The map the visitor has built after the given visits, in order. */
  function Collected(friendlyName: string, visits: seq<(DeviceDesc, ServiceDesc)>, isType: TypeTest): (m: map<string, DeviceDesc>)
    decreases |visits|
  {
    if visits == [] then map[]
    else AccumStep(Collected(friendlyName, visits[..|visits| - 1], isType), friendlyName, visits[|visits| - 1], isType)
  }

  /** A UDN is collected exactly when some accepted visit is for a device
      with that UDN, and every collected description is stored under its
      own UDN. */
  lemma {:induction false} CollectedKeys(friendlyName: string, visits: seq<(DeviceDesc, ServiceDesc)>,
                                         isType: TypeTest, udn: string)
    ensures udn in Collected(friendlyName, visits, isType) <==>
      exists i :: 0 <= i < |visits| && Accepts(isType, friendlyName, visits[i].0, visits[i].1) && visits[i].0.udn == udn
    ensures udn in Collected(friendlyName, visits, isType) ==>
      Collected(friendlyName, visits, isType)[udn].udn == udn
    decreases |visits|
  {
    if visits != [] {
      var init := visits[..|visits| - 1];
      CollectedKeys(friendlyName, init, isType, udn);
      if exists i :: 0 <= i < |init| && Accepts(isType, friendlyName, init[i].0, init[i].1) && init[i].0.udn == udn {
        var i :| 0 <= i < |init| && Accepts(isType, friendlyName, init[i].0, init[i].1) && init[i].0.udn == udn;
        assert visits[i] == init[i];
      }
      if exists i :: 0 <= i < |visits| && Accepts(isType, friendlyName, visits[i].0, visits[i].1) && visits[i].0.udn == udn {
        var i :| 0 <= i < |visits| && Accepts(isType, friendlyName, visits[i].0, visits[i].1) && visits[i].0.udn == udn;
        if i < |init| {
          assert init[i] == visits[i];
        }
      }
    }
  }

  /** A device seen several times is stored as it was at its last accepted
      visit: later entries for the same UDN overwrite earlier ones. */
  lemma {:induction false} CollectedLastWins(friendlyName: string, visits: seq<(DeviceDesc, ServiceDesc)>,
                                             isType: TypeTest, i: nat)
    requires i < |visits| && Accepts(isType, friendlyName, visits[i].0, visits[i].1)
    requires forall j :: i < j < |visits| && Accepts(isType, friendlyName, visits[j].0, visits[j].1) ==>
      visits[j].0.udn != visits[i].0.udn
    ensures visits[i].0.udn in Collected(friendlyName, visits, isType)
    ensures Collected(friendlyName, visits, isType)[visits[i].0.udn] == visits[i].0
    decreases |visits|
  {
    if i < |visits| - 1 {
      var init := visits[..|visits| - 1];
      assert init[i] == visits[i];
      CollectedLastWins(friendlyName, init, isType, i);
    }
  }

  /** The UDNs of a list of descriptions. */
  function Udns(ds: seq<DeviceDesc>): (us: set<string>) {
    set k | 0 <= k < |ds| :: ds[k].udn
  }

  /** getDeviceDescs: the renderers collected while traversing the directory
      are appended, in no particular order, to `devices`, which is not
      cleared first; the result says whether `devices` ends up non-empty. */
  method GetDeviceDescs(devices: seq<DeviceDesc>, friendlyName: string,
                        visits: seq<(DeviceDesc, ServiceDesc)>, isType: TypeTest)
    returns (ok: bool, devices': seq<DeviceDesc>)
    ensures |devices'| >= |devices| && devices'[..|devices|] == devices
    ensures var added := devices'[|devices|..];
      var found := Collected(friendlyName, visits, isType);
      && Udns(added) == found.Keys
      && |added| == |found.Keys|
      && forall k :: 0 <= k < |added| ==> added[k].udn in found && found[added[k].udn] == added[k]
    ensures ok <==> |devices'| > 0
  {
    var mydevs := Traverse(friendlyName, visits, isType);
    CollectedUdns(friendlyName, visits, isType);
    var added := MapValues(mydevs);
    devices' := devices + added;
    assert devices'[..|devices|] == devices && devices'[|devices|..] == added;
    ok := |devices'| > 0;
  }

  /** The directory traversal with the MDAccum visitor. */
  method Traverse(friendlyName: string, visits: seq<(DeviceDesc, ServiceDesc)>, isType: TypeTest)
    returns (mydevs: map<string, DeviceDesc>)
    ensures mydevs == Collected(friendlyName, visits, isType)
  {
    mydevs := map[];
    for i := 0 to |visits|
      invariant mydevs == Collected(friendlyName, visits[..i], isType)
    {
      assert visits[..i + 1][..i] == visits[..i];
      var cont;
      cont, mydevs := MDAccum(mydevs, friendlyName, visits[i].0, visits[i].1, isType);
    }
    assert visits[..|visits|] == visits;
  }

  /** The loop over the collected map: every description once, in the
      map's (unspecified) order. */
  method MapValues(mydevs: map<string, DeviceDesc>) returns (added: seq<DeviceDesc>)
    requires forall u :: u in mydevs ==> mydevs[u].udn == u
    ensures Udns(added) == mydevs.Keys
    ensures |added| == |mydevs.Keys|
    ensures forall k :: 0 <= k < |added| ==> added[k].udn in mydevs && mydevs[added[k].udn] == added[k]
  {
    added := [];
    var rest := mydevs.Keys;
    while rest != {}
      invariant rest <= mydevs.Keys
      invariant Udns(added) == mydevs.Keys - rest
      invariant |added| == |mydevs.Keys - rest|
      invariant forall k :: 0 <= k < |added| ==> added[k].udn in mydevs && mydevs[added[k].udn] == added[k]
      decreases |rest|
    {
      var u :| u in rest;
      MapValuesStep(mydevs, added, rest, u);
      added := added + [mydevs[u]];
      rest := rest - {u};
    }
  }

  /** Moving one key from the keys still to visit to the listed ones keeps
      the loop's invariant. */
  lemma MapValuesStep(mydevs: map<string, DeviceDesc>, added: seq<DeviceDesc>, rest: set<string>, u: string)
    requires forall u :: u in mydevs ==> mydevs[u].udn == u
    requires rest <= mydevs.Keys && u in rest
    requires Udns(added) == mydevs.Keys - rest
    requires |added| == |mydevs.Keys - rest|
    requires forall k :: 0 <= k < |added| ==> added[k].udn in mydevs && mydevs[added[k].udn] == added[k]
    ensures var added' := added + [mydevs[u]];
      && Udns(added') == mydevs.Keys - (rest - {u})
      && |added'| == |mydevs.Keys - (rest - {u})|
      && forall k :: 0 <= k < |added'| ==> added'[k].udn in mydevs && mydevs[added'[k].udn] == added'[k]
  {
    var added' := added + [mydevs[u]];
    AddOne(added, mydevs[u]);
    assert u !in mydevs.Keys - rest;
    assert mydevs.Keys - (rest - {u}) == (mydevs.Keys - rest) + {u};
    forall k | 0 <= k < |added'|
      ensures added'[k].udn in mydevs && mydevs[added'[k].udn] == added'[k]
    {
      if k < |added| {
        assert added'[k] == added[k];
      }
    }
  }

  lemma CollectedUdns(friendlyName: string, visits: seq<(DeviceDesc, ServiceDesc)>, isType: TypeTest)
    ensures forall u :: u in Collected(friendlyName, visits, isType) ==> Collected(friendlyName, visits, isType)[u].udn == u
  {
    forall u | u in Collected(friendlyName, visits, isType)
      ensures Collected(friendlyName, visits, isType)[u].udn == u
    {
      CollectedKeys(friendlyName, visits, isType, u);
    }
  }

  lemma AddOne(ds: seq<DeviceDesc>, d: DeviceDesc)
    ensures Udns(ds + [d]) == Udns(ds) + {d.udn}
  {
    var e := ds + [d];
    assert e[|ds|] == d;
    forall u | u in Udns(ds) ensures u in Udns(e) {
      var k :| 0 <= k < |ds| && ds[k].udn == u;
      assert e[k] == ds[k];
    }
  }

  // ---------------------------------------------------------------------
  // Service handles

  /** The index of the first service of the given kind, if any. */
  function FirstMatch(services: seq<ServiceDesc>, k: Kind, isType: TypeTest): (r: Option<nat>)
    ensures r.Some? ==> r.value < |services| && isType(k, services[r.value].serviceType)
    ensures r.Some? ==> forall j :: 0 <= j < r.value ==> !isType(k, services[j].serviceType)
    ensures r.None? ==> forall j :: 0 <= j < |services| ==> !isType(k, services[j].serviceType)
    decreases |services|
  {
    if services == [] then None
    else if isType(k, services[0].serviceType) then Some(0)
    else match FirstMatch(services[1..], k, isType)
      case None => None
      case Some(i) => Some(i + 1)
  }

  /** An accessor object (RenderingControl, AVTransport, ...) built for one
      service of the device. */
  class ServiceHandle {
    const kind: Kind
    const service: ServiceDesc

    constructor (k: Kind, s: ServiceDesc)
      ensures kind == k && service == s
    {
      kind := k;
      service := s;
    }
  }

  class MediaRenderer {
    const desc: DeviceDesc
    const isType: TypeTest
    /** The weak references m_rdc, m_avt, m_ohpr, m_ohpl, m_ohtm and
        m_ohvl: a kind is present while its handle is alive. */
    var cache: map<Kind, ServiceHandle>

    constructor (d: DeviceDesc, t: TypeTest)
      ensures desc == d && isType == t && cache == map[]
    {
      desc := d;
      isType := t;
      cache := map[];
    }

    /** The last owner of a handle releases it: its weak reference expires. */
    method Release(k: Kind)
      modifies this`cache
      ensures cache == old(cache) - {k}
    {
      cache := cache - {k};
    }

    /** rdc, avt, ohpr, ohpl, ohtm and ohvl: a live cached handle is
        returned as it is; otherwise a handle is built for the first service
        of the kind in description order and cached, or none is returned
        when the device has no such service. */
    method Get(k: Kind) returns (h: Option<ServiceHandle>)
      modifies this`cache
      ensures k in old(cache) ==> h == Some(old(cache)[k]) && cache == old(cache)
      ensures k !in old(cache) ==>
        match FirstMatch(desc.services, k, isType)
        case None => h.None? && cache == old(cache)
        case Some(i) =>
          && h.Some? && fresh(h.value)
          && h.value.kind == k && h.value.service == desc.services[i]
          && cache == old(cache)[k := h.value]
    {
      if k in cache {
        return Some(cache[k]);
      }
      h := None;
      var services := desc.services;
      var i := 0;
      while i < |services|
        invariant 0 <= i <= |services|
        invariant forall j :: 0 <= j < i ==> !isType(k, services[j].serviceType)
      {
        if isType(k, services[i].serviceType) {
          var s := new ServiceHandle(k, services[i]);
          h := Some(s);
          break;
        }
        i := i + 1;
      }
      if h.Some? {
        cache := cache[k := h.value];
      } else {
        cache := cache - {k};
      }
    }

    /** hasOpenHome: whether an OpenHome Product handle can be had. */
    method HasOpenHome() returns (b: bool)
      modifies this`cache
      ensures b <==> OHProduct in old(cache) || FirstMatch(desc.services, OHProduct, isType).Some?
      ensures forall k :: k != OHProduct ==> (k in cache <==> k in old(cache))
      ensures forall k :: k != OHProduct && k in cache ==> cache[k] == old(cache)[k]
    {
      var h := Get(OHProduct);
      b := h.Some?;
    }
  }
}
