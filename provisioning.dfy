/**
 * `OLTDevice`: the provisioning side of the agent. `olt_services` maps a service key to the
 * downstream flow hash, the upstream flow hash and the service object; `flow_ids_to_hash` maps
 * a flow hash to the OpenFlow cookies it stands for. The install and uninstall paths issue
 * calls into the OLT (see `Hardware`) and update both tables.
 *
 * A flow hash is compared with `None` on entry to an install or uninstall, but
 * the table update and the OMCI `install`/`delete` flags use Python truthiness, which also
 * treats a hash of 0 as absent; `Truthy` states the latter.
 */
module Provisioning {
  import opened Wrappers
  import opened Dicts
  import opened Services
  import opened Hardware
  import OpenFlow
  import Allocators
  import PortNumbers
  import Reconcile
  import VlanTags
  import MetersGroups

  /**
   * The `flowType` `check_priorities` is given: a direction for a unicast flow, or multicast.
   * Its callers never pass `"voip"`, so that branch of the code is not part of this model.
   */
  datatype FlowType = Directed(d: OpenFlow.Direction) | McGroup

  /** The key `check_priorities` looks up: the ONU port's, or the multicast key. */
  function PriorityKey(ft: FlowType, portNo: nat): (k: Key)
    ensures ft.McGroup? <==> k.kind == Multicast
  {
    if ft.McGroup? then MulticastKey
    else
      var p := PortNumbers.PortNoToOnu(portNo);
      Key(p.intfId, p.onuId, p.pptp, if p.pots then Voip else Internet)
  }

  /** The slot `check_priorities` tests: downstream for a multicast flow. */
  function SlotFor(e: Entry, ft: FlowType): Option<nat>
  {
    if ft.McGroup? then e.dw else Slot(e, ft.d)
  }

  /**
   * What `check_priorities` finds: a free slot (no service, or nothing installed in that
   * direction), a stored service that keeps its place, or one the new priorities preempt.
   */
  datatype Preemption = Free | Kept | Preempted

  /** The service object under a key. */
  datatype Svc = Unicast(u: UnicastService) | Mcast(m: MulticastService)

  function SvcObject(s: Svc): object
  {
    match s
    case Unicast(u) => u
    case Mcast(m) => m
  }

  /** A value of `olt_services`: `(cf_dw_flow, cf_up_flow, service)`. */
  datatype Entry = Entry(dw: Option<nat>, up: Option<nat>, svc: Svc)

  /** Python truthiness of an optional flow hash: `None` and 0 are false. */
  predicate Truthy(o: Option<nat>)
  {
    o.Some? && o.value != 0
  }

  function SvcDir(d: OpenFlow.Direction): Services.Direction
  {
    if d == OpenFlow.Downstream then Services.Downstream else Services.Upstream
  }

  /** The hash slot of one direction. */
  function Slot(e: Entry, d: OpenFlow.Direction): Option<nat>
  {
    if d == OpenFlow.Downstream then e.dw else e.up
  }

  function WithSlot(e: Entry, d: OpenFlow.Direction, v: Option<nat>): (r: Entry)
    ensures Slot(r, d) == v && r.svc == e.svc
    ensures d == OpenFlow.Downstream ==> r.up == e.up
    ensures d == OpenFlow.Upstream ==> r.dw == e.dw
  {
    if d == OpenFlow.Downstream then e.(dw := v) else e.(up := v)
  }

  /**
   * The entry a successful install of `flowId` in direction `d` stores: `if not dw_flow_id:
   * dw_flow_id = cf_dw_flow`, so the new hash unless it is 0, and the other slot as it was.
   */
  function Installed(e: Entry, d: OpenFlow.Direction, flowId: nat): Entry
  {
    WithSlot(e, d, if flowId != 0 then Some(flowId) else Slot(e, d))
  }

  /** The entry a successful uninstall of direction `d` leaves: that slot emptied. */
  function Cleared(e: Entry, d: OpenFlow.Direction): Entry
  {
    WithSlot(e, d, None)
  }

  /** An uninstall deletes the service when neither slot is truthy afterwards. */
  predicate Deletes(e: Entry, d: OpenFlow.Direction)
  {
    var c := Cleared(e, d);
    !Truthy(c.dw) && !Truthy(c.up)
  }

  /**
   * Installing into an empty slot and uninstalling it again gives the entry back; the other
   * direction is never touched, and the installed slot holds the hash unless it is 0.
   */
  lemma InstallThenClear(e: Entry, d: OpenFlow.Direction, flowId: nat)
    requires Slot(e, d).None?
    ensures Cleared(Installed(e, d, flowId), d) == e
    ensures Slot(Installed(e, d, flowId), d) == (if flowId != 0 then Some(flowId) else None)
    ensures Installed(e, d, flowId).svc == e.svc
    ensures d == OpenFlow.Downstream ==> Installed(e, d, flowId).up == e.up
    ensures d == OpenFlow.Upstream ==> Installed(e, d, flowId).dw == e.dw
  {
  }

  /**
   * Uninstalling one direction deletes the service exactly when the other slot holds no
   * truthy hash.
   */
  lemma DeletesIff(e: Entry, d: OpenFlow.Direction)
    ensures Deletes(e, d) <==> !Truthy(Slot(e, if d == OpenFlow.Downstream then OpenFlow.Upstream else OpenFlow.Downstream))
  {
  }

  /** The GEM port pools after `free_gemport(gemport_id, intf_id)`; `None` is never held. */
  function Freed(pools: map<nat, seq<nat>>, g: Option<nat>, intf: nat): map<nat, seq<nat>>
  {
    if g.Some? && intf in pools && g.value in pools[intf] then pools[intf := Allocators.RemoveValue(pools[intf], g.value)]
    else pools
  }

  /** The flow `generate_downstream_flow` or `generate_upstream_flow` builds. */
  function FlowIn(u: UnicastService, d: OpenFlow.Direction, flowId: nat): Option<Flow>
    reads u
  {
    if d == OpenFlow.Downstream then u.DownstreamFlow(flowId) else u.UpstreamFlow(flowId)
  }

  function SchedsOf(u: UnicastService, d: OpenFlow.Direction): TrafficSchedulers
    reads u
  {
    u.SchedulersIn(SvcDir(d))
  }

  function QueuesOf(u: UnicastService, d: OpenFlow.Direction): TrafficQueues
    reads u
  {
    u.QueuesIn(SvcDir(d))
  }

  /** The priorities of one direction: the flow is generated only when there are some. */
  function PrioritiesOf(u: UnicastService, d: OpenFlow.Direction): seq<nat>
    reads u
  {
    if d == OpenFlow.Downstream then u.dwPriorities else u.upPriorities
  }

  /** The flow id a service records for one direction. */
  function RecordedId(u: UnicastService, d: OpenFlow.Direction): nat
    reads u
  {
    if d == OpenFlow.Downstream then u.downstreamFlowId else u.upstreamFlowId
  }

  /** `generate_downstream_flow` or `generate_upstream_flow`. */
  method GenerateFlow(u: UnicastService, d: OpenFlow.Direction, flowId: nat) returns (f: Option<Flow>)
    modifies u`downstreamFlowId, u`upstreamFlowId
    ensures f == old(FlowIn(u, d, flowId))
    ensures RecordedId(u, d) == if |PrioritiesOf(u, d)| > 0 then flowId else old(RecordedId(u, d))
    ensures d == OpenFlow.Downstream ==> u.upstreamFlowId == old(u.upstreamFlowId)
    ensures d == OpenFlow.Upstream ==> u.downstreamFlowId == old(u.downstreamFlowId)
  {
    if d == OpenFlow.Downstream {
      f := u.GenerateDownstreamFlow(flowId);
    } else {
      f := u.GenerateUpstreamFlow(flowId);
    }
  }

  /** `clean_downstream_flow` or `clean_upstream_flow`. */
  method CleanFlow(u: UnicastService, d: OpenFlow.Direction)
    modifies u`downstreamFlowId, u`upstreamFlowId
    ensures RecordedId(u, d) == 0
    ensures d == OpenFlow.Downstream ==> u.upstreamFlowId == old(u.upstreamFlowId)
    ensures d == OpenFlow.Upstream ==> u.downstreamFlowId == old(u.downstreamFlowId)
  {
    if d == OpenFlow.Downstream {
      u.CleanDownstreamFlow();
    } else {
      u.CleanUpstreamFlow();
    }
  }

  /**
   * `olt_services` is a dictionary whose multicast key, `(0, 0, 0, "multicast")`, holds the
   * multicast service and whose other keys hold unicast services.
   */
  ghost predicate TableOk(t: Dict<Key, Entry>)
  {
    && t.Valid()
    && (forall k :: k in t.m ==> (t.m[k].svc.Mcast? <==> k.kind == Multicast))
    && (forall k :: k in t.m && k.kind == Multicast ==> k == MulticastKey)
  }

  /** Storing a unicast entry under a unicast key keeps the table sound and the multicast entry. */
  lemma PutUnicastOk(t: Dict<Key, Entry>, key: Key, e: Entry)
    requires TableOk(t) && key.kind != Multicast && e.svc.Unicast?
    ensures TableOk(t.Put(key, e))
    ensures MulticastKey in t.Put(key, e).m <==> MulticastKey in t.m
    ensures MulticastKey in t.m ==> t.Put(key, e).m[MulticastKey] == t.m[MulticastKey]
  {
  }

  /** Popping a unicast key keeps the table sound and the multicast entry. */
  lemma PopUnicastOk(t: Dict<Key, Entry>, key: Key)
    requires TableOk(t) && key.kind != Multicast
    ensures TableOk(t.Pop(key))
    ensures MulticastKey in t.Pop(key).m <==> MulticastKey in t.m
    ensures MulticastKey in t.m ==> t.Pop(key).m[MulticastKey] == t.m[MulticastKey]
  {
  }

  /** Storing a multicast service under the multicast key keeps the table sound. */
  lemma PutMulticastOk(t: Dict<Key, Entry>, e: Entry)
    requires TableOk(t) && e.svc.Mcast?
    ensures TableOk(t.Put(MulticastKey, e))
  {
  }

  /** Popping the multicast key keeps the table sound and leaves no multicast entry. */
  lemma PopMulticastOk(t: Dict<Key, Entry>)
    requires TableOk(t)
    ensures TableOk(t.Pop(MulticastKey))
    ensures forall k :: k in t.Pop(MulticastKey).m ==> k.kind != Multicast
  {
  }

  lemma Log2(c0: seq<HwCall>, a: HwCall, b: HwCall)
    ensures c0 + [a] + [b] == c0 + [a, b]
  {
  }

  lemma Log3(c0: seq<HwCall>, a: HwCall, b: HwCall, c: HwCall)
    ensures c0 + [a] + [b] + [c] == c0 + [a, b, c]
  {
  }

  lemma Log4(c0: seq<HwCall>, a: HwCall, b: HwCall, c: HwCall, d: HwCall)
    ensures c0 + [a] + [b] + [c] + [d] == c0 + [a, b, c, d]
  {
  }

  lemma Log6(c0: seq<HwCall>, a: HwCall, b: HwCall, c: HwCall, d: HwCall, e: HwCall, f: HwCall)
    ensures c0 + [a] + [b] + [c] + [d] + [e] + [f] == c0 + [a, b, c, d, e, f]
  {
  }

  /**
   * The members after an uninstall of the multicast service that got as far as the flags say:
   * the flows generated (recording `cf` when there are priorities), then, once every flow is
   * removed, the ids cleaned, then the queues dropped, then the schedulers.
   */
  function TornMembers(ms: seq<Member>, cf: nat, generated: bool, flowsRemoved: bool, queuesRemoved: bool,
                       schedsRemoved: bool): seq<Member>
  {
    if !flowsRemoved then (if generated then WithFlowId(ms, cf) else ms)
    else
      var c := WithFlowId(ms, 0);
      var q := if queuesRemoved then WithoutQueues(c) else c;
      if schedsRemoved then WithoutScheds(q) else q
  }

  /** The two halves of a multicast uninstall that gets past the member group make up `McRemoveRun`. */
  lemma McRemoveComposed(acc: Oracle, f: seq<HwCall>, gm: Group, q: seq<HwCall>, s: seq<HwCall>,
                         c0: seq<HwCall>, c1: seq<HwCall>, c2: seq<HwCall>)
    requires FirstRefused(acc, |c0|, f).None? && Accepts(acc, |c0| + |f|, RemoveGroup(gm))
    requires c1 == c0 + (f + [RemoveGroup(gm)])
    requires c2 == c1 + McRemoveTail(acc, |c1|, q, s).log
    ensures c2 == c0 + McRemoveRun(acc, |c0|, f, gm, q, s).log
  {
    McRemoveRunPast(acc, |c0|, f, gm, q, s);
    Cat2(c0, f + [RemoveGroup(gm)], McRemoveTail(acc, |c1|, q, s).log);
  }

  lemma Cat2(c0: seq<HwCall>, a: seq<HwCall>, b: seq<HwCall>)
    ensures c0 + a + b == c0 + (a + b)
  {
  }

  lemma Cat3(c0: seq<HwCall>, a: seq<HwCall>, b: seq<HwCall>, c: seq<HwCall>)
    ensures c0 + a + b + c == c0 + (a + (b + c))
  {
  }

  lemma Cat5(c0: seq<HwCall>, a: seq<HwCall>, b: seq<HwCall>, c: seq<HwCall>, d: seq<HwCall>, e: seq<HwCall>)
    ensures c0 + a + b + c + d + e == c0 + (a + (b + (c + (d + e))))
  {
  }

  /** What `get_Service_from_flow` reports: the key of the entry and the slot's flow type. */
  datatype Owner = Owner(key: Key, ft: FlowType)

  /** True when one of the entry's slots holds hash `h`. */
  predicate Holds(e: Entry, h: nat)
  {
    e.dw == Some(h) || e.up == Some(h)
  }

  /**
   * The first of the keys `ks` whose entry holds `h`: a downstream match is reported before an
   * upstream one, and as the multicast type under the multicast key.
   */
  function OwnerIn(t: Dict<Key, Entry>, ks: seq<Key>, h: nat): (r: Option<Owner>)
    requires forall k :: k in ks ==> k in t.m
    ensures r.Some? ==> r.value.key in ks
  {
    if |ks| == 0 then None
    else
      var e := t.m[ks[0]];
      if e.dw == Some(h) then Some(Owner(ks[0], if ks[0].kind == Multicast then McGroup else Directed(OpenFlow.Downstream)))
      else if e.up == Some(h) then Some(Owner(ks[0], Directed(OpenFlow.Upstream)))
      else OwnerIn(t, ks[1..], h)
  }

  /**
   * The owner found is the first entry holding `h`, the slot it names holds `h`, and the
   * upstream type is reported only when the downstream slot does not hold `h`; nothing is
   * found exactly when no entry holds `h`.
   */
  lemma {:induction false} OwnerInIsFirst(t: Dict<Key, Entry>, ks: seq<Key>, h: nat)
    requires forall k :: k in ks ==> k in t.m
    ensures OwnerIn(t, ks, h).None? <==> forall k :: k in ks ==> !Holds(t.m[k], h)
    ensures OwnerIn(t, ks, h).Some? ==>
      var o := OwnerIn(t, ks, h).value;
      && o.key in ks
      && SlotFor(t.m[o.key], o.ft) == Some(h)
      && (o.ft.McGroup? <==> o.key.kind == Multicast && t.m[o.key].dw == Some(h))
      && (o.ft == Directed(OpenFlow.Upstream) <==> t.m[o.key].dw != Some(h))
      && exists j :: 0 <= j < |ks| && ks[j] == o.key && forall i :: 0 <= i < j ==> !Holds(t.m[ks[i]], h)
  {
    if |ks| > 0 {
      assert forall k :: k in ks <==> k == ks[0] || k in ks[1..];
      OwnerInIsFirst(t, ks[1..], h);
      if OwnerIn(t, ks, h).Some? && !Holds(t.m[ks[0]], h) {
        var o := OwnerIn(t, ks, h).value;
        var j :| 0 <= j < |ks[1..]| && ks[1..][j] == o.key && forall i :: 0 <= i < j ==> !Holds(t.m[ks[1..][i]], h);
        assert ks[j + 1] == o.key;
        assert forall i :: 0 <= i < j + 1 ==> !Holds(t.m[ks[i]], h) by {
          forall i | 0 <= i < j + 1 ensures !Holds(t.m[ks[i]], h) {
            if i > 0 { assert ks[i] == ks[1..][i - 1]; }
          }
        }
      }
    }
  }

  /** The hashes among `ks`, in order, whose cookie list holds `flowId`. */
  function HashesWith(t: Dict<nat, seq<nat>>, ks: seq<nat>, flowId: nat): seq<nat>
    requires forall k :: k in ks ==> k in t.m
  {
    if |ks| == 0 then []
    else
      var last := ks[|ks| - 1];
      HashesWith(t, ks[..|ks| - 1], flowId) + (if flowId in t.m[last] then [last] else [])
  }

  /** The hashes reported are exactly the keys whose cookie list holds `flowId`, each once. */
  lemma {:induction false} HashesWithExactly(t: Dict<nat, seq<nat>>, ks: seq<nat>, flowId: nat)
    requires forall k :: k in ks ==> k in t.m
    ensures forall x :: x in HashesWith(t, ks, flowId) <==> x in ks && flowId in t.m[x]
    ensures Distinct(ks) ==> Distinct(HashesWith(t, ks, flowId))
  {
    if |ks| > 0 {
      var init, last := ks[..|ks| - 1], ks[|ks| - 1];
      assert ks == init + [last];
      assert forall x :: x in ks <==> x in init || x == last;
      HashesWithExactly(t, init, flowId);
      if Distinct(ks) {
        assert last !in init;
        var r := HashesWith(t, init, flowId);
        var r' := r + (if flowId in t.m[last] then [last] else []);
        forall i, j | 0 <= i < j < |r'| ensures r'[i] != r'[j] {
          if j == |r| { assert r'[i] in r; }
        }
      }
    }
  }

  /** The flow type `install_received_service` hands to `check_priorities`, when it has one. */
  function ReceivedType(s: Reconcile.Service): Option<FlowType>
  {
    if s.serviceType == Some(OpenFlow.Multicast) then Some(McGroup)
    else if s.flowType.Some? then Some(Directed(s.flowType.value))
    else None
  }

  /** The port `install_received_service` hands to `check_priorities`: 0 for multicast. */
  function ReceivedPort(s: Reconcile.Service): Option<nat>
  {
    if s.serviceType == Some(OpenFlow.Multicast) then Some(0) else s.onuPort
  }

  /** A service type the dispatch knows, and for multicast the downstream direction it demands. */
  predicate Dispatchable(s: Reconcile.Service)
  {
    s.serviceType.Some? && (s.serviceType == Some(OpenFlow.Multicast) ==> s.flowType == Some(OpenFlow.Downstream))
  }

  /**
   * Where `install_received_service` stands before the service object is built: refused,
   * skipped (the stored service keeps its place, reported as a success), or going on with the
   * hash of the cookies and the VLAN tags.
   */
  datatype Verdict = Reject | Skip | Proceed(h: nat, tags: VlanTags.Tags)

  /** The service objects a table holds. */
  ghost function ObjectsOf(t: Dict<Key, Entry>): set<object>
  {
    set k | k in t.m :: SvcObject(t.m[k].svc)
  }

  /** Popping a key, or storing an entry with the same service, holds no new service object. */
  lemma ObjectsShrink(t: Dict<Key, Entry>, k: Key, e: Entry)
    requires t.Valid()
    ensures ObjectsOf(t.Pop(k)) <= ObjectsOf(t)
    ensures k in t.m && e.svc == t.m[k].svc ==> ObjectsOf(t.Put(k, e)) == ObjectsOf(t)
  {
  }

  /** `[{"port_no": p, "flowType": "downstream"}]` for each port of a multicast group. */
  function DownstreamPorts(ps: seq<nat>): (r: seq<Reconcile.DeletedPort>)
    ensures |r| == |ps| && forall i :: 0 <= i < |ps| ==> r[i] == Reconcile.DeletedPort(ps[i], OpenFlow.Downstream)
  {
    if |ps| == 0 then [] else [Reconcile.DeletedPort(ps[0], OpenFlow.Downstream)] + DownstreamPorts(ps[1..])
  }

  /** The port number `configureFlows` reports for a removed unicast service: no POTS bit, VoIP included. */
  function ReportedPortAsWritten(k: Key): nat
  {
    PortNumbers.OnuToPortNo(k.intfId, k.onuId, k.uniId, false)
  }

  /** The port number of the UNI the service came from: the POTS bit set for a VoIP service. */
  function ReportedPort(k: Key): nat
  {
    PortNumbers.OnuToPortNo(k.intfId, k.onuId, k.uniId, k.kind == Voip)
  }

  /** As written, the port reported for a VoIP service names the Internet service of its UNI. */
  lemma ReportedPortAsWrittenMissesVoip(k: Key, d: OpenFlow.Direction)
    requires k.kind == Voip && k.intfId < 16 && k.onuId < 2048 && k.uniId < 65536
    ensures PriorityKey(Directed(d), ReportedPortAsWritten(k)) == k.(kind := Internet)
    ensures PriorityKey(Directed(d), ReportedPortAsWritten(k)) != k
  {
    PortNumbers.RoundTrip(k.intfId, k.onuId, k.uniId, false);
  }

  /** The reported port maps back to the removed service's own key. */
  lemma ReportedPortFindsService(k: Key, d: OpenFlow.Direction)
    requires k.kind != Multicast && k.intfId < 16 && k.onuId < 2048 && k.uniId < 65536
    ensures PriorityKey(Directed(d), ReportedPort(k)) == k
  {
    PortNumbers.RoundTrip(k.intfId, k.onuId, k.uniId, k.kind == Voip);
  }

  /** Removing the keys of a set a few more keys at a time. */
  lemma MinusStep(m: map<nat, seq<nat>>, gone: set<nat>, more: set<nat>)
    ensures (m - gone) - more == m - (gone + more)
  {
  }

  /** How the removal of one hash ended. */
  datatype Removal = NoOwner | NoGroup | Refused | Removed(ports: seq<Reconcile.DeletedPort>)

  /** The hashes `hs[i]` whose outcome `rs[i]` removed their owner, and so are popped. */
  function PoppedOf(hs: seq<nat>, rs: seq<Removal>): set<nat>
    requires |rs| <= |hs|
  {
    if |rs| == 0 then {}
    else PoppedOf(hs, rs[..|rs| - 1]) + (if rs[|rs| - 1].Removed? then {hs[|rs| - 1]} else {})
  }

  /**
   * A hash is popped exactly when some outcome for it is a removal; in a list without repeats,
   * a hash whose owner was missing or refused is kept.
   */
  lemma {:induction false} PoppedOfMembers(hs: seq<nat>, rs: seq<Removal>)
    requires |rs| <= |hs|
    ensures forall i :: 0 <= i < |rs| && rs[i].Removed? ==> hs[i] in PoppedOf(hs, rs)
    ensures forall x :: x in PoppedOf(hs, rs) ==> exists i :: 0 <= i < |rs| && rs[i].Removed? && hs[i] == x
    ensures Distinct(hs) ==> forall i :: 0 <= i < |rs| ==> (hs[i] in PoppedOf(hs, rs) <==> rs[i].Removed?)
  {
    if |rs| > 0 {
      var init := rs[..|rs| - 1];
      PoppedOfMembers(hs, init);
      assert forall i :: 0 <= i < |init| ==> init[i] == rs[i];
    }
  }

  /** One more outcome: its hash joins the popped ones when it was removed, and its ports are reported. */
  lemma OutcomeStep(hs: seq<nat>, rs: seq<Removal>, r: Removal)
    requires |rs| < |hs|
    ensures PoppedOf(hs, rs + [r]) == PoppedOf(hs, rs) + (if r.Removed? then {hs[|rs|]} else {})
    ensures RemovedPorts(rs + [r]) == RemovedPorts(rs) + (if r.Removed? then r.ports else [])
  {
    assert (rs + [r])[..|rs|] == rs;
  }

  /** `deletedPorts` after the outcomes `rs`: the ports of each removal, in order. */
  function RemovedPorts(rs: seq<Removal>): (r: seq<Reconcile.DeletedPort>)
    ensures (forall i :: 0 <= i < |rs| ==> !rs[i].Removed?) ==> r == []
  {
    if |rs| == 0 then []
    else RemovedPorts(rs[..|rs| - 1]) + (if rs[|rs| - 1].Removed? then rs[|rs| - 1].ports else [])
  }

  class OltDevice {
    /** The OLT's answers to the calls it receives. */
    const acc: Oracle
    /** The first four bytes of the SHA-256 of the packed cookies, big-endian. */
    const hash: seq<nat> -> nat
    const pools: Allocators.GemportPools

    /** Every call made into the OLT, in order. */
    var calls: seq<HwCall>
    var services: Dict<Key, Entry>
    var hashes: Dict<nat, seq<nat>>

    /** The multicast service object, when there is one. */
    ghost function McObjects(): set<object>
      reads this
    {
      if MulticastKey in services.m && services.m[MulticastKey].svc.Mcast? then {services.m[MulticastKey].svc.m} else {}
    }

    /**
     * Both tables are dictionaries; a multicast key holds the one multicast service, every
     * other key a unicast service; the GEM port pools and the multicast membership are sound.
     */
    ghost predicate Valid()
      reads this, pools, McObjects()
    {
      && TableOk(services) && hashes.Valid() && pools.Valid()
      && (MulticastKey in services.m ==> services.m[MulticastKey].svc.m.Valid())
    }

    constructor (acc: Oracle, hash: seq<nat> -> nat, pools: Allocators.GemportPools)
      requires pools.Valid()
      ensures this.acc == acc && this.hash == hash && this.pools == pools
      ensures calls == [] && services == Dict(map[], []) && hashes == Dict(map[], [])
      ensures Valid()
    {
      this.acc, this.hash, this.pools := acc, hash, pools;
      calls, services, hashes := [], Dict(map[], []), Dict(map[], []);
    }

    /** The service objects the table holds. */
    ghost function Objects(): set<object>
      reads this
    {
      ObjectsOf(services)
    }

    /**
     * The verdict of `check_priorities(priorities, flowType, port_no)` on the current table;
     * a stored service is preempted when `compare_priorities` prefers the new list.
     */
    function PreemptionOf(priorities: seq<nat>, ft: FlowType, portNo: nat): Preemption
      reads this, Objects()
    {
      var key := PriorityKey(ft, portNo);
      if key !in services.m || SlotFor(services.m[key], ft).None? then Free
      else
        var wins := match services.m[key].svc
          case Mcast(m) => Decide(priorities, m.priorities).GetOr(false)
          case Unicast(u) => Compare(priorities, u.upPriorities, u.dwPriorities, SvcDir(if ft.Directed? then ft.d else OpenFlow.Downstream));
        if wins then Preempted else Kept
    }

    /** `get_Service_from_flow(h)`: the table walked in order for the entry holding `h`. */
    method GetServiceFromFlow(h: nat) returns (r: Option<Owner>)
      requires services.Valid()
      ensures r == OwnerIn(services, services.order, h)
    {
      var i := 0;
      while i < |services.order|
        invariant 0 <= i <= |services.order|
        invariant OwnerIn(services, services.order, h) == OwnerIn(services, services.order[i..], h)
      {
        var key := services.order[i];
        var e := services.m[key];
        assert services.order[i..][1..] == services.order[i + 1..];
        if e.dw == Some(h) {
          return Some(Owner(key, if key.kind == Multicast then McGroup else Directed(OpenFlow.Downstream)));
        } else if e.up == Some(h) {
          return Some(Owner(key, Directed(OpenFlow.Upstream)));
        }
        i := i + 1;
      }
      return None;
    }

    /** `get_flowHash(flowId)`: the hashes, in table order, whose cookie list holds `flowId`. */
    method GetFlowHash(flowId: nat) returns (r: seq<nat>)
      requires hashes.Valid()
      ensures r == HashesWith(hashes, hashes.order, flowId)
    {
      r := [];
      var i := 0;
      while i < |hashes.order|
        invariant 0 <= i <= |hashes.order|
        invariant r == HashesWith(hashes, hashes.order[..i], flowId)
      {
        var h := hashes.order[i];
        assert hashes.order[..i + 1][..i] == hashes.order[..i];
        if flowId in hashes.m[h] {
          r := r + [h];
        }
        i := i + 1;
      }
      assert hashes.order[..i] == hashes.order;
    }

    /** One call into the OLT: logged, and answered by the oracle at its position. */
    method Call(c: HwCall) returns (ok: bool)
      modifies this`calls
      ensures calls == old(calls) + [c]
      ensures ok == Accepts(acc, |old(calls)|, c)
    {
      ok := Accepts(acc, |calls|, c);
      calls := calls + [c];
    }

    /** The calls `cs` in order, up to and including the first one the OLT refuses. */
    method RunCalls(cs: seq<HwCall>) returns (k: Option<nat>)
      modifies this`calls
      ensures k == FirstRefused(acc, |old(calls)|, cs)
      ensures calls == old(calls) + (if k.None? then cs else cs[..k.value + 1])
    {
      ghost var n := |calls|;
      var i := 0;
      while i < |cs|
        invariant 0 <= i <= |cs|
        invariant calls == old(calls) + cs[..i]
        invariant forall j :: 0 <= j < i ==> Accepts(acc, n + j, cs[j])
      {
        var ok := Call(cs[i]);
        assert cs[..i + 1] == cs[..i] + [cs[i]];
        if !ok {
          FirstRefusedAt(acc, n, cs, i);
          return Some(i);
        }
        i := i + 1;
      }
      FirstRefusedNone(acc, n, cs);
      assert cs[..i] == cs;
      return None;
    }

    /** The calls `cs` in order whatever the answers, as the rollback loops issue them. */
    method CallAll(cs: seq<HwCall>)
      modifies this`calls
      ensures calls == old(calls) + cs
    {
      var i := 0;
      while i < |cs|
        invariant 0 <= i <= |cs|
        invariant calls == old(calls) + cs[..i]
      {
        var _ := Call(cs[i]);
        assert cs[..i + 1] == cs[..i] + [cs[i]];
        i := i + 1;
      }
      assert cs[..i] == cs;
    }

    /**
     * The group, the schedulers and the queues of `install_MulticastService`. A refused group
     * is removed; a refused scheduler is removed on its own; a refused queue is removed and
     * then every scheduler.
     */
    method RunMcResources(g: Group, ss: seq<Option<TrafficSchedulers>>, qs: seq<Option<TrafficQueues>>)
      returns (ok: bool)
      modifies this`calls
      ensures ok == McFlowsReached(acc, |old(calls)|, g, ss, qs)
      ensures calls == old(calls) + McResourcesLog(acc, |old(calls)|, g, ss, qs)
    {
      ghost var c0 := calls;
      ok := Call(PerformGroup(g));
      if !ok {
        var _ := Call(RemoveGroup(g));
        Log2(c0, PerformGroup(g), RemoveGroup(g));
        return;
      }
      var k := RunCalls(CreateAllScheds(ss));
      if k.Some? {
        var _ := Call(RemoveScheds(ss[k.value]));
        Cat3(c0, [PerformGroup(g)], CreateAllScheds(ss)[..k.value + 1], [RemoveScheds(ss[k.value])]);
        return false;
      }
      ghost var c1 := calls;
      k := RunCalls(CreateAllQueues(qs));
      if k.Some? {
        var _ := Call(RemoveQueues(qs[k.value]));
        CallAll(RemoveAllScheds(ss));
        Cat5(c0, [PerformGroup(g)], CreateAllScheds(ss), CreateAllQueues(qs)[..k.value + 1],
             [RemoveQueues(qs[k.value])], RemoveAllScheds(ss));
        return false;
      }
      Cat3(c0, [PerformGroup(g)], CreateAllScheds(ss), CreateAllQueues(qs));
    }

    /** The rollback of `install_MulticastService` after a refused flow: that flow, every queue, every scheduler. */
    method RunMcFlowRollback(f: Flow, qs: seq<Option<TrafficQueues>>, ss: seq<Option<TrafficSchedulers>>)
      modifies this`calls
      ensures calls == old(calls) + ([RemoveFlow(Some(f))] + (RemoveAllQueues(qs) + RemoveAllScheds(ss)))
    {
      var _ := Call(RemoveFlow(Some(f)));
      CallAll(RemoveAllQueues(qs));
      CallAll(RemoveAllScheds(ss));
      Cat3(old(calls), [RemoveFlow(Some(f))], RemoveAllQueues(qs), RemoveAllScheds(ss));
    }

    /** The member group update of `install_MulticastService`: a refusal removes the group, success configures OMCI. */
    method RunMcMembers(gm: Group, g: Group) returns (ok: bool)
      modifies this`calls
      ensures ok == Accepts(acc, |old(calls)|, PerformGroup(gm))
      ensures calls == old(calls) + ([PerformGroup(gm)] + [if ok then OmciConfigureMulticast else RemoveGroup(g)])
    {
      ok := Call(PerformGroup(gm));
      if !ok {
        var _ := Call(RemoveGroup(g));
        Log2(old(calls), PerformGroup(gm), RemoveGroup(g));
        return;
      }
      var _ := Call(OmciConfigureMulticast);
      Log2(old(calls), PerformGroup(gm), OmciConfigureMulticast);
    }

    /**
     * The flows and the member group of `install_MulticastService`, once the resources are in:
     * a refused flow is removed, then every queue, then every scheduler; a refused member
     * update removes the group; a full run ends with the OMCI configuration.
     */
    method RunMcDelivery(fs: seq<Flow>, gm: Group, g: Group, ss: seq<Option<TrafficSchedulers>>,
                         qs: seq<Option<TrafficQueues>>) returns (ok: bool)
      modifies this`calls
      ensures var a := McDeliveryRun(acc, |old(calls)|, fs, gm, g, ss, qs);
        calls == old(calls) + a.log && ok == a.ok
    {
      ghost var c0 := calls;
      var k := RunCalls(AddAllFlows(fs));
      if k.Some? {
        RunMcFlowRollback(fs[k.value], qs, ss);
        Cat2(c0, AddAllFlows(fs)[..k.value + 1], [RemoveFlow(Some(fs[k.value]))] + (RemoveAllQueues(qs) + RemoveAllScheds(ss)));
        return false;
      }
      ok := RunMcMembers(gm, g);
      Cat2(c0, AddAllFlows(fs), [PerformGroup(gm)] + [if ok then OmciConfigureMulticast else RemoveGroup(g)]);
    }

    /**
     * The calls of `install_MulticastService` once the slot is free, in the order the code
     * makes them, with its rollbacks. The members record the flow id when the flows are
     * generated, which happens only once the queues are accepted.
     */
    method RunMcInstall(m: MulticastService, flowId: nat) returns (ok: bool)
      requires m.Valid()
      modifies this`calls, m`members
      ensures m.Valid()
      ensures var g, ss, qs := old(m.GetGroup()), MembersSchedulers(old(m.members)), MembersQueues(old(m.members), m.groupId);
              var fs := MembersFlows(old(m.members), flowId, m.priorities, m.gemportId, m.groupId);
              var a := McInstallRun(acc, |old(calls)|, g, ss, qs, fs, old(m.GetGroupMembers()));
        && calls == old(calls) + a.log && ok == a.ok
        && m.members == (if McFlowsReached(acc, |old(calls)|, g, ss, qs) && |m.priorities| > 0
                         then WithFlowId(old(m.members), flowId) else old(m.members))
    {
      ghost var c0, n, ms := calls, |calls|, m.members;
      var g := m.GetGroup();
      var ss := m.AllTrafficSchedulers();
      var qs := m.AllTrafficQueues();
      ok := RunMcResources(g, ss, qs);
      if !ok {
        return;
      }
      var flows := m.GenerateFlows(flowId);
      var members := m.GetGroupMembers();
      ghost var c1 := calls;
      ok := RunMcDelivery(flows, members, g, ss, qs);
      Cat2(c0, McResourcesLog(acc, n, g, ss, qs), McDeliveryRun(acc, |c1|, flows, members, g, ss, qs).log);
    }

    /**
     * The first half of `uninstall_MulticastService`: the flows of `cf` are generated again and
     * removed, stopping at a refusal; then the ids are cleaned and the member group removed,
     * the service forgetting its group once the OLT accepts.
     */
    method RunMcRemoveFront(m: MulticastService, cf: nat) returns (ok: bool)
      requires m.Valid()
      modifies this`calls, m`members, m`group
      ensures m.Valid()
      ensures var f := RemoveAllFlows(MembersFlows(old(m.members), cf, m.priorities, m.gemportId, m.groupId));
              var gm := old(m.GetGroupMembers());
              var k := FirstRefused(acc, |old(calls)|, f);
        && ok == (k.None? && Accepts(acc, |old(calls)| + |f|, RemoveGroup(gm)))
        && calls == old(calls) + (if k.Some? then f[..k.value + 1] else f + [RemoveGroup(gm)])
        && m.members == TornMembers(old(m.members), cf, |m.priorities| > 0, k.None?, false, false)
        && m.group == (if ok then [] else old(m.group))
    {
      ghost var ms := m.members;
      var flows := m.GenerateFlows(cf);
      var k := RunCalls(RemoveAllFlows(flows));
      if k.Some? {
        return false;
      }
      m.CleanFlows();
      var gm := m.GetGroupMembers();
      ok := Call(RemoveGroup(gm));
      if !ok {
        return;
      }
      m.RemoveGroupMembers();
    }

    /**
     * The second half of `uninstall_MulticastService`: the queues, then the schedulers, each
     * dropped from the service once the OLT accepts all of them; a refusal stops the run.
     */
    method RunMcRemoveBack(m: MulticastService) returns (ok: bool)
      requires m.Valid()
      modifies this`calls, m`members
      ensures m.Valid()
      ensures var q, s := RemoveAllQueues(MembersQueues(old(m.members), m.groupId)), RemoveAllScheds(MembersSchedulers(old(m.members)));
              var t := McRemoveTail(acc, |old(calls)|, q, s);
        && calls == old(calls) + t.log && ok == t.ok
        && m.members == (if FirstRefused(acc, |old(calls)|, q).Some? then old(m.members)
                         else if t.ok then WithoutScheds(WithoutQueues(old(m.members)))
                         else WithoutQueues(old(m.members)))
    {
      ghost var n, ms := |calls|, m.members;
      var qs := m.AllTrafficQueues();
      var k := RunCalls(RemoveAllQueues(qs));
      if k.Some? {
        return false;
      }
      m.RemoveTrafficQueues();
      SchedulersIgnoreQueues(ms);
      var ss := m.AllTrafficSchedulers();
      ghost var c1 := calls;
      k := RunCalls(RemoveAllScheds(ss));
      if k.Some? {
        Cat2(old(calls), RemoveAllQueues(qs), RemoveAllScheds(ss)[..k.value + 1]);
        return false;
      }
      Cat2(old(calls), RemoveAllQueues(qs), RemoveAllScheds(ss));
      m.RemoveTrafficSchedulers();
      return true;
    }

    /**
     * The calls of `uninstall_MulticastService` once the slot holds `cf`: the flows, the member
     * group, the queues and the schedulers in turn, the first refusal stopping the run. The
     * service forgets each part once the OLT accepts its removal.
     */
    method RunMcRemove(m: MulticastService, cf: nat) returns (ok: bool)
      requires m.Valid()
      modifies this`calls, m`members, m`group
      ensures m.Valid()
      ensures var ms, n := old(m.members), |old(calls)|;
              var f := RemoveAllFlows(MembersFlows(ms, cf, m.priorities, m.gemportId, m.groupId));
              var gm := old(m.GetGroupMembers());
              var q, s := RemoveAllQueues(MembersQueues(ms, m.groupId)), RemoveAllScheds(MembersSchedulers(ms));
              var t := McRemoveRun(acc, n, f, gm, q, s);
              var flowsRemoved := FirstRefused(acc, n, f).None?;
              var groupRemoved := flowsRemoved && Accepts(acc, n + |f|, RemoveGroup(gm));
              var queuesRemoved := groupRemoved && FirstRefused(acc, n + |f| + 1, q).None?;
        && calls == old(calls) + t.log && ok == t.ok
        && m.group == (if groupRemoved then [] else old(m.group))
        && m.members == TornMembers(ms, cf, |m.priorities| > 0, flowsRemoved, queuesRemoved, t.ok)
    {
      ghost var c0, ms := calls, m.members;
      ghost var gm := m.GetGroupMembers();
      ghost var f := RemoveAllFlows(MembersFlows(ms, cf, m.priorities, m.gemportId, m.groupId));
      ok := RunMcRemoveFront(m, cf);
      if !ok {
        return;
      }
      ResourcesIgnoreFlowIds(ms, 0, m.groupId);
      ghost var c1, ms1 := calls, m.members;
      ghost var q, s := RemoveAllQueues(MembersQueues(ms, m.groupId)), RemoveAllScheds(MembersSchedulers(ms));
      assert ms1 == WithFlowId(ms, 0) && |c1| == |c0| + |f| + 1;
      ghost var t := McRemoveTail(acc, |c1|, q, s);
      ok := RunMcRemoveBack(m);
      McRemoveRunPast(acc, |c0|, f, gm, q, s);
      assert McRemoveRun(acc, |c0|, f, gm, q, s).ok == t.ok;
      McRemoveComposed(acc, f, gm, q, s, c0, c1, calls);
      assert m.members == TornMembers(ms, cf, |m.priorities| > 0, true, FirstRefused(acc, |c1|, q).None?, t.ok);
    }

    /**
     * `install_MulticastService`: an occupied downstream slot refuses at once. Otherwise the
     * group, the schedulers, the queues, the flows and the member group are created in turn as
     * `McInstall` lays out, a refusal rolling back what it names and leaving the table as it was;
     * after a full run the entry records the hash downstream and an empty upstream slot. The
     * flow ids the service records once its flows are generated stay recorded either way.
     */
    method InstallMulticast(flowId: nat) returns (ok: bool)
      requires Valid() && MulticastKey in services.m
      modifies this`calls, this`services, services.m[MulticastKey].svc.m`members
      ensures Valid()
      ensures hashes == old(hashes) && pools.pools == old(pools.pools)
      ensures var e := old(services.m[MulticastKey]);
              var m := e.svc.m;
              var ms := old(m.members);
              var g, ss, qs := old(m.GetGroup()), MembersSchedulers(ms), MembersQueues(ms, m.groupId);
              var a := McInstall(acc, |old(calls)|, g, ss, qs, MembersFlows(ms, flowId, m.priorities, m.gemportId, m.groupId),
                                 old(m.GetGroupMembers()));
        && (e.dw.Some? ==> !ok && calls == old(calls) && services == old(services) && m.members == ms)
        && (e.dw.None? ==>
              && ok == a.ok && calls == old(calls) + a.log
              && services == (if a.ok then old(services).Put(MulticastKey, Entry(Some(flowId), None, e.svc)) else old(services))
              && m.members == (if McFlowsReached(acc, |old(calls)|, g, ss, qs) && |m.priorities| > 0
                               then WithFlowId(ms, flowId) else ms))
    {
      var e := services.m[MulticastKey];
      var m := e.svc.m;
      if e.dw.Some? {
        return false;
      }
      ghost var n, ms := |calls|, m.members;
      ok := RunMcInstall(m, flowId);
      McInstallRunIsInstall(acc, n, m.GetGroup(), MembersSchedulers(ms), MembersQueues(ms, m.groupId),
                            MembersFlows(ms, flowId, m.priorities, m.gemportId, m.groupId), m.GetGroupMembers());
      if ok {
        PutMulticastOk(services, Entry(Some(flowId), None, e.svc));
        services := services.Put(MulticastKey, Entry(Some(flowId), None, e.svc));
      }
    }

    /** The calls that tear down the multicast entry `e`, issued from log position `n`. */
    function MulticastTeardown(n: nat, e: Entry): Attempt
      requires e.svc.Mcast? && e.dw.Some?
      reads e.svc.m
    {
      var m := e.svc.m;
      var ms := m.members;
      Teardown(acc, n, McRemovePlan(MembersFlows(ms, e.dw.value, m.priorities, m.gemportId, m.groupId), m.GetGroupMembers(),
                                    MembersQueues(ms, m.groupId), MembersSchedulers(ms)))
    }

    /**
     * What `uninstall_MulticastService` does to the multicast entry `e`: nothing when its
     * downstream slot is empty; otherwise the teardown's calls, the service torn as far as the
     * OLT accepted (flow ids cleaned once the flows are gone, the group dropped once removed,
     * then the queues and the schedulers), and after a full run the OMCI removal, the GEM port
     * freed on interface 0 and the key popped.
     */
    twostate predicate MulticastUninstalled(e: Entry)
      requires old(services.Valid() && MulticastKey in services.m && services.m[MulticastKey] == e) && e.svc.Mcast?
      reads this, pools, e.svc.m
    {
      var m := e.svc.m;
      var ms := old(m.members);
      && hashes == old(hashes)
      && (e.dw.None? ==>
            calls == old(calls) && services == old(services) && pools.pools == old(pools.pools)
            && m.members == ms && m.group == old(m.group))
      && (e.dw.Some? ==>
            var n := |old(calls)|;
            var t := old(MulticastTeardown(|calls|, e));
            var f := RemoveAllFlows(MembersFlows(ms, e.dw.value, m.priorities, m.gemportId, m.groupId));
            var flowsRemoved := FirstRefused(acc, n, f).None?;
            var groupRemoved := flowsRemoved && Accepts(acc, n + |f|, RemoveGroup(old(m.GetGroupMembers())));
            var queuesRemoved := groupRemoved && FirstRefused(acc, n + |f| + 1, RemoveAllQueues(MembersQueues(ms, m.groupId))).None?;
            && (!t.ok ==> calls == old(calls) + t.log && services == old(services) && pools.pools == old(pools.pools))
            && (t.ok ==>
                  && calls == old(calls) + t.log + [OmciRemoveMulticast]
                  && services == old(services).Pop(MulticastKey)
                  && pools.pools == Freed(old(pools.pools), m.gemportId, 0))
            && m.group == (if groupRemoved then [] else old(m.group))
            && m.members == TornMembers(ms, e.dw.value, |m.priorities| > 0, flowsRemoved, queuesRemoved, t.ok))
    }

    /**
     * `uninstall_MulticastService`: an empty downstream slot succeeds at once. Otherwise the
     * calls of `McRemovePlan` are issued in turn, the first refusal stopping the run with the
     * table as it was (the service is then torn as far as `RunMcRemove` says). After a full run the OMCI
     * removal follows, the GEM port is freed on interface 0 and the key popped.
     */
    method UninstallMulticast() returns (ok: bool)
      requires Valid() && MulticastKey in services.m
      modifies this`calls, this`services, pools, services.m[MulticastKey].svc.m`members, services.m[MulticastKey].svc.m`group
      ensures Valid()
      ensures old(services.m[MulticastKey].svc.Mcast?)
      ensures MulticastUninstalled(old(services.m[MulticastKey]))
      ensures hashes == old(hashes) && Objects() <= old(Objects())
      ensures ok == (old(services.m[MulticastKey]).dw.None? || old(MulticastTeardown(|calls|, services.m[MulticastKey])).ok)
    {
      var e := services.m[MulticastKey];
      var m := e.svc.m;
      if e.dw.None? {
        return true;
      }
      ghost var n, ms, gm := |calls|, m.members, m.GetGroupMembers();
      ghost var t := MulticastTeardown(n, e);
      ok := RunMcRemove(m, e.dw.value);
      McRemoveRunIsTeardown(acc, n, MembersFlows(ms, e.dw.value, m.priorities, m.gemportId, m.groupId), gm,
                            MembersQueues(ms, m.groupId), MembersSchedulers(ms));
      assert ok == t.ok;
      if !ok {
        return;
      }
      RetireMulticast(e);
    }

    /** The end of a full multicast uninstall run: the OMCI removal, the GEM port and the key. */
    method RetireMulticast(e: Entry)
      requires Valid() && MulticastKey in services.m && services.m[MulticastKey] == e && e.svc.Mcast?
      modifies this`calls, this`services, pools
      ensures Valid()
      ensures calls == old(calls) + [OmciRemoveMulticast]
      ensures services == old(services).Pop(MulticastKey) && Objects() <= old(Objects())
      ensures pools.pools == Freed(old(pools.pools), e.svc.m.gemportId, 0)
    {
      var m := e.svc.m;
      var _ := Call(OmciRemoveMulticast);
      if m.gemportId.Some? {
        pools.FreeGemport(m.gemportId.value, 0);
      }
      PopMulticastOk(services);
      ObjectsShrink(services, MulticastKey, e);
      services := services.Pop(MulticastKey);
    }

    /**
     * The creating half of an install: the schedulers, the queues and the flow of direction
     * `d` as a transaction. The flow is generated, recording its id in the service, only once
     * the schedulers and the queues are accepted.
     */
    method RunInstall(u: UnicastService, d: OpenFlow.Direction, flowId: nat) returns (ok: bool)
      modifies this`calls, u`downstreamFlowId, u`upstreamFlowId
      ensures var plan := InstallPlan(old(SchedsOf(u, d)), old(QueuesOf(u, d)), old(FlowIn(u, d, flowId)));
              var a := Transaction(acc, |old(calls)|, plan);
        && calls == old(calls) + a.log && ok == a.ok
        && RecordedId(u, d) == (if (a.ok || |a.log| == 6) && |PrioritiesOf(u, d)| > 0 then flowId else old(RecordedId(u, d)))
      ensures d == OpenFlow.Downstream ==> u.upstreamFlowId == old(u.upstreamFlowId)
      ensures d == OpenFlow.Upstream ==> u.downstreamFlowId == old(u.downstreamFlowId)
    {
      ghost var c0 := calls;
      ghost var S, Q, F := SchedsOf(u, d), QueuesOf(u, d), FlowIn(u, d, flowId);
      ghost var a := Transaction(acc, |calls|, InstallPlan(S, Q, F));
      InstallCases(acc, |calls|, S, Q, F);
      var s := u.GetTrafficSchedulersIn(SvcDir(d));
      ok := Call(CreateScheds(Some(s)));
      if !ok {
        ok := Call(RemoveScheds(Some(s)));
        Log2(c0, CreateScheds(Some(s)), RemoveScheds(Some(s)));
        return false;
      }
      var q := u.GetTrafficQueuesIn(SvcDir(d));
      assert s == S && q == Q;
      ok := Call(CreateQueues(Some(q)));
      if !ok {
        ok := Call(RemoveQueues(Some(q)));
        ok := Call(RemoveScheds(Some(s)));
        Log4(c0, CreateScheds(Some(s)), CreateQueues(Some(q)), RemoveQueues(Some(q)), RemoveScheds(Some(s)));
        return false;
      }
      var f := GenerateFlow(u, d, flowId);
      assert f == F;
      ok := Call(AddFlow(f));
      if !ok {
        ok := Call(RemoveFlow(f));
        ok := Call(RemoveQueues(Some(q)));
        ok := Call(RemoveScheds(Some(s)));
        Log6(c0, CreateScheds(Some(s)), CreateQueues(Some(q)), AddFlow(f), RemoveFlow(f), RemoveQueues(Some(q)), RemoveScheds(Some(s)));
        return false;
      }
      Log3(c0, CreateScheds(Some(s)), CreateQueues(Some(q)), AddFlow(f));
    }

    /**
     * The removing half of an uninstall: the flow, the queues and the schedulers of direction
     * `d` in turn, the service forgetting each once its call is accepted; the first refusal
     * stops the run.
     */
    method RunRemove(u: UnicastService, d: OpenFlow.Direction, flowId: nat) returns (ok: bool)
      modifies this`calls, u`downstreamFlowId, u`upstreamFlowId, u`queues, u`scheds
      ensures var plan := RemovePlan(old(SchedsOf(u, d)), old(QueuesOf(u, d)), old(FlowIn(u, d, flowId)));
              var t := Teardown(acc, |old(calls)|, plan);
        && calls == old(calls) + t.log && ok == t.ok
        && RecordedId(u, d) == (if |t.log| > 1 || t.ok then 0 else if |PrioritiesOf(u, d)| > 0 then flowId else old(RecordedId(u, d)))
        && u.queues == (if |t.log| > 2 || t.ok then Remove(old(u.queues), QueueDir, SvcDir(d)) else old(u.queues))
        && u.scheds == (if t.ok then Remove(old(u.scheds), SchedDir, SvcDir(d)) else old(u.scheds))
      ensures d == OpenFlow.Downstream ==> u.upstreamFlowId == old(u.upstreamFlowId)
      ensures d == OpenFlow.Upstream ==> u.downstreamFlowId == old(u.downstreamFlowId)
    {
      ghost var c0 := calls;
      ghost var S, Q, F := SchedsOf(u, d), QueuesOf(u, d), FlowIn(u, d, flowId);
      RemoveCases(acc, |calls|, S, Q, F);
      var f := GenerateFlow(u, d, flowId);
      assert f == F;
      ok := Call(RemoveFlow(f));
      if !ok {
        return false;
      }
      CleanFlow(u, d);
      var q := u.GetTrafficQueuesIn(SvcDir(d));
      assert q == Q;
      ok := Call(RemoveQueues(Some(q)));
      if !ok {
        Log2(c0, RemoveFlow(f), RemoveQueues(Some(q)));
        return false;
      }
      u.RemoveTrafficQueues(SvcDir(d));
      var s := u.GetTrafficSchedulersIn(SvcDir(d));
      assert s == S;
      ok := Call(RemoveScheds(Some(s)));
      Log3(c0, RemoveFlow(f), RemoveQueues(Some(q)), RemoveScheds(Some(s)));
      if !ok {
        return false;
      }
      u.RemoveTrafficSchedulers(SvcDir(d));
    }

    /**
     * `install_InternetService` / `install_VoipService` for one direction (`voip` picks the
     * OMCI routine). An occupied slot refuses at once. Otherwise the schedulers, the queues and
     * the flow of the direction are created as a transaction: on a refusal the created calls are
     * undone and the table is untouched; when all are accepted the OMCI configuration follows,
     * with `install` when neither slot held a truthy hash, and the entry records the hash.
     */
    method InstallUnicast(key: Key, d: OpenFlow.Direction, flowId: nat, voip: bool) returns (ok: bool)
      requires Valid() && key in services.m && key.kind != Multicast
      modifies this, services.m[key].svc.u
      ensures Valid()
      ensures hashes == old(hashes)
      ensures var e := old(services.m[key]);
              var u := e.svc.u;
              var n := |old(calls)|;
              var a := Transaction(acc, n, InstallPlan(old(SchedsOf(u, d)), old(QueuesOf(u, d)), old(FlowIn(u, d, flowId))));
        && (Slot(e, d).Some? ==> !ok && calls == old(calls) && services == old(services))
        && (Slot(e, d).None? ==> ok == a.ok)
        && (Slot(e, d).None? && !a.ok ==> calls == old(calls) + a.log && services == old(services))
        && (Slot(e, d).None? && a.ok ==>
              && calls == old(calls) + a.log + [OmciConfigure(key, d, !Truthy(e.dw) && !Truthy(e.up), voip)]
              && services == old(services).Put(key, Installed(e, d, flowId)))
    {
      var e := services.m[key];
      if Slot(e, d).Some? {
        return false;
      }
      ok := RunInstall(e.svc.u, d, flowId);
      if !ok {
        return false;
      }
      var install := !Truthy(e.dw) && !Truthy(e.up);
      var _ := Call(OmciConfigure(key, d, install, voip));
      PutUnicastOk(services, key, Installed(e, d, flowId));
      services := services.Put(key, Installed(e, d, flowId));
    }

    /** The calls that tear down direction `d` of a unicast entry, issued from log position `n`. */
    function UnicastTeardown(n: nat, e: Entry, d: OpenFlow.Direction): Attempt
      requires e.svc.Unicast? && Slot(e, d).Some?
      reads e.svc.u
    {
      var u := e.svc.u;
      Teardown(acc, n, RemovePlan(SchedsOf(u, d), QueuesOf(u, d), FlowIn(u, d, Slot(e, d).value)))
    }

    /**
     * What `uninstall_InternetService` / `uninstall_VoipService` of direction `d` does to the
     * entry `e` that `key` held: nothing when the slot is empty; otherwise the teardown's calls,
     * the service forgetting what the OLT accepted removing, and after a full run the OMCI
     * removal and either the entry kept with that slot emptied or the service deleted.
     */
    twostate predicate UnicastUninstalled(key: Key, e: Entry, d: OpenFlow.Direction, voip: bool)
      requires old(services.Valid() && key in services.m && services.m[key] == e) && e.svc.Unicast?
      reads this, pools, e.svc.u
    {
      var u := e.svc.u;
      && hashes == old(hashes)
      && (Slot(e, d).None? ==>
            && calls == old(calls) && services == old(services) && pools.pools == old(pools.pools)
            && unchanged(u))
      && (Slot(e, d).Some? ==>
            var t := old(UnicastTeardown(|calls|, e, d));
            && (!t.ok ==> calls == old(calls) + t.log && services == old(services) && pools.pools == old(pools.pools))
            && (t.ok ==> calls == old(calls) + t.log + [OmciRemove(key, d, Deletes(e, d), voip)])
            && (t.ok && !Deletes(e, d) ==> services == old(services).Put(key, Cleared(e, d)) && pools.pools == old(pools.pools))
            && (t.ok && Deletes(e, d) ==>
                  services == old(services).Pop(key) && pools.pools == Freed(old(pools.pools), old(u.gemportId), u.intfId))
            && RecordedId(u, d) == (if |t.log| > 1 || t.ok then 0
                                    else if |old(PrioritiesOf(u, d))| > 0 then Slot(e, d).value else old(RecordedId(u, d)))
            && u.queues == (if |t.log| > 2 || t.ok then Remove(old(u.queues), QueueDir, SvcDir(d)) else old(u.queues))
            && u.scheds == (if t.ok then Remove(old(u.scheds), SchedDir, SvcDir(d)) else old(u.scheds))
            && (d == OpenFlow.Downstream ==> u.upstreamFlowId == old(u.upstreamFlowId))
            && (d == OpenFlow.Upstream ==> u.downstreamFlowId == old(u.downstreamFlowId)))
    }

    /**
     * `uninstall_InternetService` / `uninstall_VoipService` for one direction. An empty slot
     * succeeds at once. Otherwise the flow, the queues and the schedulers are removed in turn;
     * the first refusal stops the run and leaves the table as it was. After a full run the OMCI
     * removal follows; when the other slot holds no truthy hash the service is deleted: its GEM
     * port is freed and the key popped; otherwise the entry keeps the other slot only.
     */
    method UninstallUnicast(key: Key, d: OpenFlow.Direction, voip: bool) returns (ok: bool)
      requires Valid() && key in services.m && key.kind != Multicast
      modifies this, services.m[key].svc.u, pools
      ensures Valid()
      ensures old(services.m[key].svc.Unicast?)
      ensures UnicastUninstalled(key, old(services.m[key]), d, voip)
      ensures hashes == old(hashes) && Objects() <= old(Objects())
      ensures ok == (Slot(old(services.m[key]), d).None? || old(UnicastTeardown(|calls|, services.m[key], d)).ok)
    {
      var e := services.m[key];
      var u := e.svc.u;
      if Slot(e, d).None? {
        return true;
      }
      ghost var t := UnicastTeardown(|calls|, e, d);
      ok := RunRemove(u, d, Slot(e, d).value);
      assert ok == t.ok;
      if !ok {
        return false;
      }
      Retire(key, d, e, voip);
    }

    /**
     * The state `check_priorities` leaves: unchanged unless the stored service is preempted,
     * and then the stored service uninstalled, a unicast one with the Internet routine.
     */
    twostate predicate PrioritiesChecked(priorities: seq<nat>, ft: FlowType, portNo: nat, objs: set<object>)
      requires old(Valid()) && objs == old(Objects())
      reads this, pools, objs
    {
      && (old(PreemptionOf(priorities, ft, portNo)) != Preempted ==>
            calls == old(calls) && services == old(services) && hashes == old(hashes) && pools.pools == old(pools.pools)
            && unchanged(objs))
      && (var key := PriorityKey(ft, portNo);
          old(PreemptionOf(priorities, ft, portNo)) == Preempted ==>
            && old(key in services.m)
            && (ft.McGroup? ==> old(services.m[key].svc.Mcast?) && MulticastUninstalled(old(services.m[key])))
            && (ft.Directed? ==> old(services.m[key].svc.Unicast?) && UnicastUninstalled(key, old(services.m[key]), ft.d, false)))
    }

    /**
     * `check_priorities`: true when the slot is free; otherwise the stored service is compared
     * with the new priorities, and either keeps its place (false, nothing changes) or is
     * uninstalled (true). A unicast service is always uninstalled with the Internet routine,
     * VoIP ones included, since the flow type passed in is a direction; the uninstall's own
     * result is not looked at.
     */
    method CheckPriorities(priorities: seq<nat>, ft: FlowType, portNo: nat) returns (r: bool)
      requires Valid()
      modifies this, pools, Objects()
      ensures Valid()
      ensures r == (old(PreemptionOf(priorities, ft, portNo)) != Kept)
      ensures PrioritiesChecked(priorities, ft, portNo, old(Objects()))
    {
      var key := PriorityKey(ft, portNo);
      if key !in services.m {
        return true;
      }
      var e := services.m[key];
      if SlotFor(e, ft).None? {
        return true;
      }
      var wins := if ft.McGroup? then Decide(priorities, e.svc.m.priorities).GetOr(false)
                  else Compare(priorities, e.svc.u.upPriorities, e.svc.u.dwPriorities, SvcDir(ft.d));
      if !wins {
        return false;
      }
      if ft.McGroup? {
        var _ := UninstallMulticast();
      } else {
        var _ := UninstallUnicast(key, ft.d, false);
      }
      return true;
    }

    /**
     * Whether installing hash `h` on the entry under `key` (direction `d` for a unicast entry)
     * goes through: the slot is free and the OLT accepts every call of the install plan.
     */
    function Installs(key: Key, d: OpenFlow.Direction, h: nat): bool
      requires key in services.m
      reads this, Objects()
    {
      var e := services.m[key];
      match e.svc
        case Mcast(m) =>
          && e.dw.None?
          && McInstall(acc, |calls|, m.GetGroup(), MembersSchedulers(m.members), MembersQueues(m.members, m.groupId),
                       MembersFlows(m.members, h, m.priorities, m.gemportId, m.groupId), m.GetGroupMembers()).ok
        case Unicast(u) =>
          && Slot(e, d).None?
          && Transaction(acc, |calls|, InstallPlan(SchedsOf(u, d), QueuesOf(u, d), FlowIn(u, d, h))).ok
    }

    /**
     * `install_received_service` up to the building of the service object: a service without
     * meters, without a customer VLAN, without a flow type or without a port is refused and
     * nothing changes; otherwise `check_priorities` runs, and a stored service that keeps its
     * place makes the call a success that installs nothing. The multicast install demands the
     * downstream direction, and an unknown service type is refused, both after that check.
     */
    method AdmitReceived(s: Reconcile.Service) returns (v: Verdict)
      requires Valid()
      modifies this, pools, Objects()
      ensures Valid()
      ensures var tags := VlanTags.TagsOf(s.vlans, s.flowType == Some(OpenFlow.Upstream));
              var ft, port := ReceivedType(s), ReceivedPort(s);
        if |s.meterIds| == 0 || tags.cTag.None? || ft.None? || port.None? then
          && v == Reject
          && calls == old(calls) && services == old(services) && hashes == old(hashes) && pools.pools == old(pools.pools)
          && unchanged(Objects())
        else
          var p := old(PreemptionOf(s.priorities, ft.value, port.value));
          && v == (if p == Kept then Skip else if Dispatchable(s) then Proceed(hash(s.flowIds), tags) else Reject)
          && PrioritiesChecked(s.priorities, ft.value, port.value, old(Objects()))
    {
      if |s.meterIds| == 0 {
        return Reject;
      }
      var tags := VlanTags.TagsOf(s.vlans, s.flowType == Some(OpenFlow.Upstream));
      if tags.cTag.None? {
        return Reject;
      }
      var ft, port := ReceivedType(s), ReceivedPort(s);
      if ft.None? || port.None? {
        return Reject;
      }
      var check := CheckPriorities(s.priorities, ft.value, port.value);
      if !check {
        return Skip;
      }
      if !Dispatchable(s) {
        return Reject;
      }
      return Proceed(hash(s.flowIds), tags);
    }

    /**
     * `installReceived_Internet` / `_VoIP` / `_Multicast` once the service object is built,
     * `key` being what the build returned: no key refuses; otherwise the install of the
     * service's direction runs, and only a successful install records the cookies under the hash.
     */
    method InstallBuilt(s: Reconcile.Service, h: nat, key: Option<Key>) returns (ok: bool)
      requires Valid() && Dispatchable(s) && s.flowType.Some?
      requires key.Some? ==> key.value in services.m && (key.value.kind == Multicast <==> s.serviceType == Some(OpenFlow.Multicast))
      modifies this, Objects()
      ensures Valid()
      ensures pools.pools == old(pools.pools)
      ensures key.None? ==> !ok && calls == old(calls) && services == old(services)
      ensures key.Some? ==> ok == old(Installs(key.value, s.flowType.value, h))
      ensures hashes == if ok then old(hashes).Put(h, s.flowIds) else old(hashes)
    {
      if key.None? {
        return false;
      }
      var k := key.value;
      assert SvcObject(services.m[k].svc) in Objects();
      if k.kind == Multicast {
        ok := InstallMulticast(h);
      } else {
        ok := InstallUnicast(k, s.flowType.value, h, s.serviceType == Some(OpenFlow.Voip));
      }
      if ok {
        hashes := hashes.Put(h, s.flowIds);
      }
    }

    /**
     * Whether the uninstall `configureFlows` runs for the owner of hash `h` is refused: the
     * owner's slot is occupied and the OLT refuses a call of its teardown.
     */
    function RefusesRemoval(h: nat): bool
      requires services.Valid() && OwnerIn(services, services.order, h).Some?
      reads this, Objects()
    {
      var o := OwnerIn(services, services.order, h).value;
      var e := services.m[o.key];
      match e.svc
        case Mcast(m) => e.dw.Some? && !MulticastTeardown(|calls|, e).ok
        case Unicast(u) => o.ft.Directed? && Slot(e, o.ft.d).Some? && !UnicastTeardown(|calls|, e, o.ft.d).ok
    }

    /**
     * How the uninstall of the owner of `h` ends from the current state: without an owner; for
     * the multicast owner, with the exception `groupId_to_ports` raises, before any call, on a
     * group the controller does not hold; with a refused teardown; or removed, reporting the
     * group's output ports downstream, or the UNI of a unicast service in its slot's direction.
     */
    function RemovalOf(h: nat, groups: seq<MetersGroups.Group>): Removal
      requires services.Valid()
      reads this, Objects()
    {
      var o := OwnerIn(services, services.order, h);
      if o.None? then NoOwner
      else
        var key := o.value.key;
        match services.m[key].svc
          case Mcast(m) =>
            if !MetersGroups.GroupExists(groups, m.groupId) then NoGroup
            else if RefusesRemoval(h) then Refused
            else Removed(DownstreamPorts(MetersGroups.GroupPorts(groups, m.groupId)))
          case Unicast(_) =>
            if RefusesRemoval(h) then Refused
            else Removed([Reconcile.DeletedPort(ReportedPort(key), if o.value.ft.Directed? then o.value.ft.d else OpenFlow.Downstream)])
    }

    /**
     * One hash of the removal half of `configureFlows`: the owner of `h` is looked up and
     * uninstalled with the routine of its type; a success reports the ports to look at again,
     * the group's output ports for multicast and the service's UNI otherwise.
     */
    method UninstallOwner(h: nat, groups: seq<MetersGroups.Group>) returns (r: Removal)
      requires Valid()
      modifies this, pools, Objects()
      ensures Valid() && Objects() <= old(Objects()) && hashes == old(hashes)
      ensures r == old(RemovalOf(h, groups))
      ensures r.NoOwner? <==> old(OwnerIn(services, services.order, h)).None?
      ensures var o := old(OwnerIn(services, services.order, h));
        o.Some? && o.value.key.kind != Multicast ==>
          && old(services.m[o.value.key].svc.Unicast?) && o.value.ft.Directed? && !r.NoGroup?
          && UnicastUninstalled(o.value.key, old(services.m[o.value.key]), o.value.ft.d, o.value.key.kind == Voip)
          && (r.Removed? ==> r.ports == [Reconcile.DeletedPort(ReportedPort(o.value.key), o.value.ft.d)])
      ensures var o := old(OwnerIn(services, services.order, h));
        o.Some? && o.value.key.kind == Multicast ==>
          && o.value.key == MulticastKey && old(services.m[MulticastKey].svc.Mcast?)
          && (r.NoGroup? <==> !MetersGroups.GroupExists(groups, old(services.m[MulticastKey].svc.m.groupId)))
          && (r.NoGroup? ==>
                && calls == old(calls) && services == old(services) && pools.pools == old(pools.pools)
                && unchanged(old(services.m[MulticastKey].svc.m)))
          && (!r.NoGroup? ==> MulticastUninstalled(old(services.m[MulticastKey])))
          && (r.Removed? ==>
                r.ports == DownstreamPorts(MetersGroups.GroupPorts(groups, old(services.m[MulticastKey].svc.m.groupId))))
    {
      var o := OwnerIn(services, services.order, h);
      OwnerInIsFirst(services, services.order, h);
      if o.None? {
        return NoOwner;
      }
      var key := o.value.key;
      assert SvcObject(services.m[key].svc) in Objects();
      ghost var refuses := RefusesRemoval(h);
      ghost var expected := RemovalOf(h, groups);
      var ok;
      var found;
      if key.kind == Multicast {
        var m := services.m[key].svc.m;
        if !MetersGroups.GroupExists(groups, m.groupId) {
          assert expected == NoGroup;
          return NoGroup;
        }
        var cf := MetersGroups.GroupPorts(groups, m.groupId);
        assert expected == if refuses then Refused else Removed(DownstreamPorts(cf));
        ok := UninstallMulticast();
        found := DownstreamPorts(cf);
      } else {
        var d := o.value.ft.d;
        assert expected == if refuses then Refused else Removed([Reconcile.DeletedPort(ReportedPort(key), d)]);
        ok := UninstallUnicast(key, d, key.kind == Voip);
        found := [Reconcile.DeletedPort(ReportedPort(key), d)];
      }
      assert ok == !refuses;
      if !ok {
        return Refused;
      }
      return Removed(found);
    }

    /** `UninstallOwner` followed by the pop of `h` that a success brings. */
    method RemoveHash(h: nat, groups: seq<MetersGroups.Group>) returns (r: Removal)
      requires Valid()
      modifies this, pools, Objects()
      ensures Valid() && Objects() <= old(Objects())
      ensures r == old(RemovalOf(h, groups))
      ensures hashes.m == if r.Removed? then old(hashes.m) - {h} else old(hashes.m)
    {
      r := UninstallOwner(h, groups);
      if r.Removed? {
        hashes := hashes.Pop(h);
      }
    }

    /**
     * The removal half of `configureFlows` for a deleted controller flow: the hashes whose
     * cookies include the flow, in table order, go through `RemoveHashes`.
     */
    method RemoveFlowServices(flowId: nat, groups: seq<MetersGroups.Group>)
      returns (deleted: bool, ports: Option<seq<Reconcile.DeletedPort>>, ghost outcomes: seq<Removal>)
      requires Valid()
      modifies this, pools, Objects()
      ensures Valid()
      ensures var hs := HashesWith(old(hashes), old(hashes.order), flowId);
        && |outcomes| <= |hs|
        && (forall i :: 0 <= i < |outcomes| - 1 ==> !outcomes[i].NoGroup?)
        && (ports.Some? <==> |outcomes| == |hs| && (|hs| == 0 || !outcomes[|hs| - 1].NoGroup?))
        && (ports.None? ==> |outcomes| > 0 && outcomes[|outcomes| - 1].NoGroup?)
        && hashes.m == old(hashes.m) - PoppedOf(hs, outcomes)
        && deleted == (forall i :: 0 <= i < |outcomes| ==> !outcomes[i].Refused?)
        && (ports.Some? ==> ports.value == RemovedPorts(outcomes))
    {
      var hs := GetFlowHash(flowId);
      deleted, ports, outcomes := RemoveHashes(hs, groups);
    }

    /**
     * The loop over `hash_flow_list`: each hash has its owner uninstalled by `RemoveHash`, the
     * ghost `outcomes` recording how each ended. A removal pops the hash and adds its ports, a
     * refusal keeps it and clears `deleted`, a hash no entry holds is passed over and kept. A
     * multicast group the controller does not hold raises and stops the walk (`ports` is `None`).
     */
    method RemoveHashes(hs: seq<nat>, groups: seq<MetersGroups.Group>)
      returns (deleted: bool, ports: Option<seq<Reconcile.DeletedPort>>, ghost outcomes: seq<Removal>)
      requires Valid()
      modifies this, pools, Objects()
      ensures Valid()
      ensures |outcomes| <= |hs|
      ensures forall i :: 0 <= i < |outcomes| - 1 ==> !outcomes[i].NoGroup?
      ensures ports.Some? <==> |outcomes| == |hs| && (|hs| == 0 || !outcomes[|hs| - 1].NoGroup?)
      ensures ports.None? ==> |outcomes| > 0 && outcomes[|outcomes| - 1].NoGroup?
      ensures hashes.m == old(hashes.m) - PoppedOf(hs, outcomes)
      ensures deleted == (forall i :: 0 <= i < |outcomes| ==> !outcomes[i].Refused?)
      ensures ports.Some? ==> ports.value == RemovedPorts(outcomes)
    {
      deleted, outcomes := true, [];
      var found: seq<Reconcile.DeletedPort> := [];
      ghost var table, objs := hashes.m, Objects();
      var i := 0;
      while i < |hs|
        invariant 0 <= i <= |hs| && |outcomes| == i
        invariant Valid()
        invariant Objects() <= objs
        invariant forall j :: 0 <= j < i ==> !outcomes[j].NoGroup?
        invariant hashes.m == table - PoppedOf(hs, outcomes)
        invariant deleted == (forall j :: 0 <= j < i ==> !outcomes[j].Refused?)
        invariant found == RemovedPorts(outcomes)
      {
        var h := hs[i];
        ghost var popped := PoppedOf(hs, outcomes);
        var r := RemoveHash(h, groups);
        OutcomeStep(hs, outcomes, r);
        MinusStep(table, popped, if r.Removed? then {h} else {});
        outcomes := outcomes + [r];
        if r.NoGroup? {
          ports := None;
          return;
        }
        if r.Refused? {
          deleted := false;
        }
        if r.Removed? {
          found := found + r.ports;
        }
        i := i + 1;
      }
      ports := Some(found);
    }

    /**
     * The end of a full uninstall run: the entry keeps the other slot, or, when that holds no
     * truthy hash, the service is deleted with its GEM port; the OMCI removal is told which.
     */
    method Retire(key: Key, d: OpenFlow.Direction, e: Entry, voip: bool)
      requires Valid() && key in services.m && services.m[key] == e && key.kind != Multicast
      modifies this`calls, this`services, pools
      ensures Valid()
      ensures calls == old(calls) + [OmciRemove(key, d, Deletes(e, d), voip)]
      ensures Objects() <= old(Objects())
      ensures !Deletes(e, d) ==> services == old(services).Put(key, Cleared(e, d)) && pools.pools == old(pools.pools)
      ensures Deletes(e, d) ==>
        services == old(services).Pop(key) && pools.pools == Freed(old(pools.pools), e.svc.u.gemportId, e.svc.u.intfId)
    {
      var u := e.svc.u;
      var e' := Cleared(e, d);
      var delete := !Truthy(e'.dw) && !Truthy(e'.up);
      if !delete {
        PutUnicastOk(services, key, e');
        ObjectsShrink(services, key, e');
        services := services.Put(key, e');
      }
      var _ := Call(OmciRemove(key, d, delete, voip));
      if delete {
        if u.gemportId.Some? {
          pools.FreeGemport(u.gemportId.value, u.intfId);
        }
        PopUnicastOk(services, key);
        ObjectsShrink(services, key, e');
        services := services.Pop(key);
      }
    }
  }
}
