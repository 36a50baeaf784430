/**
 * `matchFlows`, `backwardTable` and `forwardTable`: the walk over the flow tables that assembles
 * one "service" record from flows the controller has sent one at a time.
 *
 * The source threads one service dictionary through the recursion and appends that same
 * dictionary to the result once for every branch that ends. A walk is therefore modelled by how
 * many times the record was appended and the record's final state: the result list is that many
 * references to one record.
 */
module Reconcile {
  import opened Wrappers
  import opened Dicts
  import opened OpenFlow
  import opened FlowStore
  import MetersGroups

  datatype VoipConfig = VoipConfig(
    sipPort: Option<nat>,
    sipServer: Option<nat>,
    rtpPort: Option<nat>,
    ipAddress: Option<nat>)

  const NoVoipConfig := VoipConfig(None, None, None, None)

  /** The service dictionary; a list that is absent and an empty list behave alike in the source. */
  datatype Service = Service(
    flowType: Option<Direction>,
    flowIds: seq<nat>,
    priorities: seq<nat>,
    onuPort: Option<nat>,
    nniPort: Option<nat>,
    serviceType: Option<ServiceType>,
    voipConfig: Option<VoipConfig>,
    meterIds: seq<nat>,
    vlans: seq<nat>,
    groupId: Option<nat>)

  const NewService := Service(None, [], [], None, None, None, None, [], [], None)

  /**
   * The VoIP block shared by both walks: the SIP port and server come from the destination
   * fields upstream and the source fields otherwise; the RTP port and address only overwrite
   * when present.
   */
  function WithVoip(s: Service, f: Flow): Service
  {
    if f.serviceType != Some(Voip) then s
    else
      var c := s.voipConfig.GetOr(NoVoipConfig);
      var m := f.matchFields;
      var c' :=
        if f.flowType == Some(Upstream) then
          VoipConfig(m.udpDst, m.ipv4Dst,
                     if m.udpSrc.Some? then m.udpSrc else c.rtpPort,
                     if m.ipv4Src.Some? then m.ipv4Src else c.ipAddress)
        else
          VoipConfig(m.udpSrc, m.ipv4Src,
                     if m.udpDst.Some? then m.udpDst else c.rtpPort,
                     if m.ipv4Dst.Some? then m.ipv4Dst else c.ipAddress);
      s.(serviceType := Some(Voip), voipConfig := Some(c'))
  }

  // ---------------------------------------------------------------- backward walk

  /** What `backwardTable` writes for the matched back flow `b`. */
  function BackStep(s: Service, b: Flow): Service
  {
    var s1 := s.(flowType := if s.flowType.None? then b.flowType else s.flowType,
                 flowIds := [b.flowId] + s.flowIds,
                 priorities := s.priorities + [b.priority]);
    var s2 :=
      if b.flowType == Some(Upstream) then s1.(onuPort := Some(b.matchFields.inPort))
      else if b.flowType == Some(Downstream) then s1.(nniPort := Some(b.matchFields.inPort))
      else s1;
    var s3 := WithVoip(s2, b);
    var s4 := if HasInstr(b, MeterId) then s3.(meterIds := s3.meterIds + [b.instructions.m[MeterId]]) else s3;
    s4.(vlans := MatchedVlan(b) + s4.vlans)
  }

  /** The matched VLAN of a back flow, when it is positive. */
  function MatchedVlan(b: Flow): seq<nat>
  {
    if b.matchFields.vlanId > 0 then [b.matchFields.vlanId] else []
  }

  /**
   * `backwardTable(f, s)`: exactly one flow of the table below must link to `f`, else the walk
   * fails; it is written into the record and the walk continues below it down to table 0.
   */
  function Backward(st: Store, f: Flow, s: Service): (r: Option<Service>)
    requires StoreOk(st)
    requires f.tableId > 0
    ensures |MatchedFlows(st, f, f.tableId - 1)| != 1 ==> r.None?
    decreases f.tableId
  {
    var back := MatchedFlows(st, f, f.tableId - 1);
    if |back| != 1 then None
    else
      var b := back[0];
      assert b in back;
      var s' := BackStep(s, b);
      if b.tableId > 0 then Backward(st, b, s') else Some(s')
  }

  /**
   * The chain of back flows below `f`, the flow of table 0 first: each is the one flow of its
   * table linking to the next one, the last links to `f`.
   */
  function BackChain(st: Store, f: Flow): (r: Option<seq<Flow>>)
    requires StoreOk(st)
    ensures r.Some? ==> |r.value| == f.tableId
    decreases f.tableId
  {
    if f.tableId == 0 then Some([])
    else
      var back := MatchedFlows(st, f, f.tableId - 1);
      if |back| != 1 then None
      else
        match BackChain(st, back[0])
        case None => None
        case Some(c) => Some(c + [back[0]])
  }

  /**
   * Walking down from `top`, the only flow table `|c| - 1` offers back is the last of `c`, the
   * only one the table below offers for that flow is the one before it, and so on to table 0.
   */
  ghost predicate Linked(st: Store, c: seq<Flow>, top: Flow)
    requires StoreOk(st)
    decreases |c|
  {
    |c| == 0 || (MatchedFlows(st, top, |c| - 1) == [c[|c| - 1]] && Linked(st, c[..|c| - 1], c[|c| - 1]))
  }

  /**
   * A chain found is a stored flow per table below `f`, in table order, each the only flow of its
   * table that links to the next one, the last the only one linking to `f`.
   */
  lemma {:induction false} BackChainLinks(st: Store, f: Flow)
    requires StoreOk(st)
    requires BackChain(st, f).Some?
    ensures var c := BackChain(st, f).value;
      && (forall i :: 0 <= i < |c| ==> c[i].tableId == i && Stored(st, c[i]))
      && Linked(st, c, f)
    decreases f.tableId
  {
    if f.tableId > 0 {
      var back := MatchedFlows(st, f, f.tableId - 1);
      var b := back[0];
      assert b in back;
      assert back == [b];
      assert Stored(st, b) by {
        assert b in TableFlows(st, f.tableId - 1);
      }
      BackChainLinks(st, b);
      var c := BackChain(st, b).value;
      assert BackChain(st, f).value == c + [b];
      ChainExtendStored(st, c, b);
      assert (c + [b])[..|c|] == c;
    }
  }

  lemma ChainExtendStored(st: Store, c: seq<Flow>, b: Flow)
    requires StoreOk(st)
    requires forall i :: 0 <= i < |c| ==> c[i].tableId == i && Stored(st, c[i])
    requires b.tableId == |c| && Stored(st, b)
    ensures var cf := c + [b];
      forall i :: 0 <= i < |cf| ==> cf[i].tableId == i && Stored(st, cf[i])
  {
    var cf := c + [b];
    forall i | 0 <= i < |cf|
      ensures cf[i].tableId == i && Stored(st, cf[i])
    {
      if i < |c| {
        assert cf[i] == c[i];
      }
    }
  }

  function Ids(c: seq<Flow>): seq<nat>
  {
    if |c| == 0 then [] else Ids(c[..|c| - 1]) + [c[|c| - 1].flowId]
  }

  /** The priorities in the order the backward walk meets them: the flow nearest `f` first. */
  function WalkPriorities(c: seq<Flow>): seq<nat>
  {
    if |c| == 0 then [] else [c[|c| - 1].priority] + WalkPriorities(c[..|c| - 1])
  }

  function ChainVlans(c: seq<Flow>): seq<nat>
  {
    if |c| == 0 then []
    else
      ChainVlans(c[..|c| - 1]) + MatchedVlan(c[|c| - 1])
  }

  /** The back steps of a chain applied from the flow nearest `f` down to table 0. */
  function ChainApply(c: seq<Flow>, s: Service): Service
    decreases |c|
  {
    if |c| == 0 then s else ChainApply(c[..|c| - 1], BackStep(s, c[|c| - 1]))
  }

  /** The backward walk succeeds exactly when the chain exists, and then applies its steps. */
  lemma {:induction false} BackwardIsChain(st: Store, f: Flow, s: Service)
    requires StoreOk(st)
    requires f.tableId > 0
    ensures Backward(st, f, s).Some? <==> BackChain(st, f).Some?
    ensures Backward(st, f, s).Some? ==> Backward(st, f, s).value == ChainApply(BackChain(st, f).value, s)
    decreases f.tableId
  {
    var back := MatchedFlows(st, f, f.tableId - 1);
    if |back| == 1 {
      var b := back[0];
      assert b in back;
      var s' := BackStep(s, b);
      if b.tableId > 0 {
        assert Backward(st, f, s) == Backward(st, b, s');
        BackwardIsChain(st, b, s');
        if BackChain(st, b).Some? {
          var cb := BackChain(st, b).value;
          var c := cb + [b];
          assert BackChain(st, f) == Some(c);
          assert c[..|c| - 1] == cb;
        } else {
          assert BackChain(st, f).None?;
        }
      } else {
        assert Backward(st, f, s) == Some(s');
        assert BackChain(st, b) == Some([]);
        assert BackChain(st, f) == Some([] + [b]);
        assert ([] + [b])[..0] == [];
      }
    } else {
      assert Backward(st, f, s).None? && BackChain(st, f).None?;
    }
  }

  /** The three lists one back step writes. */
  lemma BackStepLists(s: Service, b: Flow)
    ensures BackStep(s, b).flowIds == [b.flowId] + s.flowIds
    ensures BackStep(s, b).priorities == s.priorities + [b.priority]
    ensures BackStep(s, b).vlans == MatchedVlan(b) + s.vlans
  {
  }

  /** Along a chain, `flowIds` gains the chain's ids with table 0 first. */
  lemma {:induction false} ChainApplyIds(c: seq<Flow>, s: Service)
    ensures ChainApply(c, s).flowIds == Ids(c) + s.flowIds
    decreases |c|
  {
    if |c| > 0 {
      var b := c[|c| - 1];
      var c' := c[..|c| - 1];
      BackStepLists(s, b);
      ChainApplyIds(c', BackStep(s, b));
      assert Ids(c') + ([b.flowId] + s.flowIds) == Ids(c) + s.flowIds;
    }
  }

  /** Along a chain, `priorities` gains the chain's priorities in walk order. */
  lemma {:induction false} ChainApplyPriorities(c: seq<Flow>, s: Service)
    ensures ChainApply(c, s).priorities == s.priorities + WalkPriorities(c)
    decreases |c|
  {
    if |c| > 0 {
      var b := c[|c| - 1];
      var c' := c[..|c| - 1];
      BackStepLists(s, b);
      ChainApplyPriorities(c', BackStep(s, b));
      assert (s.priorities + [b.priority]) + WalkPriorities(c') == s.priorities + WalkPriorities(c);
    }
  }

  /** Along a chain, the positive matched VLANs go in front in table order. */
  lemma {:induction false} ChainApplyVlans(c: seq<Flow>, s: Service)
    ensures ChainApply(c, s).vlans == ChainVlans(c) + s.vlans
    decreases |c|
  {
    if |c| > 0 {
      var b := c[|c| - 1];
      var c' := c[..|c| - 1];
      BackStepLists(s, b);
      ChainApplyVlans(c', BackStep(s, b));
      assert ChainVlans(c') + (MatchedVlan(b) + s.vlans) == ChainVlans(c) + s.vlans;
    }
  }

  /**
   * The backward walk succeeds exactly when the chain exists; then `flowIds` gains the chain's ids
   * with table 0 first, `priorities` gains them in walk order, and the positive matched VLANs go
   * in front in table order.
   */
  lemma BackwardFollowsChain(st: Store, f: Flow, s: Service)
    requires StoreOk(st)
    requires f.tableId > 0
    ensures Backward(st, f, s).Some? <==> BackChain(st, f).Some?
    ensures Backward(st, f, s).Some? ==>
      && Backward(st, f, s).value.flowIds == Ids(BackChain(st, f).value) + s.flowIds
      && Backward(st, f, s).value.priorities == s.priorities + WalkPriorities(BackChain(st, f).value)
      && Backward(st, f, s).value.vlans == ChainVlans(BackChain(st, f).value) + s.vlans
  {
    BackwardIsChain(st, f, s);
    if BackChain(st, f).Some? {
      ChainApplyIds(BackChain(st, f).value, s);
      ChainApplyPriorities(BackChain(st, f).value, s);
      ChainApplyVlans(BackChain(st, f).value, s);
    }
  }

  /** The backward walk adds as many flow ids as priorities. */
  lemma BackwardBalanced(st: Store, f: Flow, s: Service)
    requires StoreOk(st)
    requires f.tableId > 0
    requires Backward(st, f, s).Some?
    ensures |Backward(st, f, s).value.flowIds| - |Backward(st, f, s).value.priorities|
            == |s.flowIds| - |s.priorities|
    ensures |Backward(st, f, s).value.flowIds| == |s.flowIds| + f.tableId
  {
    BackwardFollowsChain(st, f, s);
    var c := BackChain(st, f).value;
    ChainLengths(c);
  }

  lemma {:induction false} ChainLengths(c: seq<Flow>)
    ensures |Ids(c)| == |c| && |WalkPriorities(c)| == |c|
  {
    if |c| > 0 {
      ChainLengths(c[..|c| - 1]);
    }
  }

  // ---------------------------------------------------------------- forward walk

  /** The record after one forward step, and whether it ended. */
  datatype Walk = Walk(count: nat, service: Service)

  /** The entries `forwardTable` writes before it looks at the flow's direction. */
  function ForwardEntry(s: Service, f: Flow): Service
  {
    s.(flowType := if s.flowType.None? then f.flowType else s.flowType,
       flowIds := s.flowIds + [f.flowId],
       priorities := s.priorities + [f.priority])
  }

  /** The entries written next for a flow with a direction: the port, VoIP and the matched VLAN. */
  function ForwardHead(s: Service, f: Flow): Service
  {
    var s2 :=
      if f.flowType == Some(Upstream) then
        (if s.onuPort.None? then s.(onuPort := Some(f.matchFields.inPort)) else s)
      else if s.nniPort.None? then s.(nniPort := Some(f.matchFields.inPort)) else s;
    var s3 := WithVoip(s2, f);
    var v := f.matchFields.vlanId;
    if v > 0 && (|s3.vlans| == 0 || v != s3.vlans[|s3.vlans| - 1]) then s3.(vlans := s3.vlans + [v]) else s3
  }

  /** The state of the instruction loop: the record, `serviceEnd` and `nextTable`. */
  datatype Pass = Pass(service: Service, ended: bool, next: Option<nat>)

  /** A group ends a downstream record that is not VoIP. */
  predicate GroupEnds(s: Service)
  {
    s.flowType == Some(Downstream) && s.serviceType != Some(Voip)
  }

  function InstrPassStep(p: Pass, k: InstrKey, v: nat): Pass
  {
    var s := p.service;
    if k == SetVlan || k == PushVlan then p.(service := s.(vlans := s.vlans + [v]))
    else if k == MeterId then p.(service := s.(meterIds := s.meterIds + [v]))
    else if k == GroupId then
      if GroupEnds(s) then Pass(s.(groupId := Some(v), serviceType := Some(Multicast)), true, p.next)
      else p
    else if k == OutPort then
      var s1 :=
        if s.flowType == Some(Upstream) then s.(nniPort := Some(v))
        else if s.flowType == Some(Downstream) then s.(onuPort := Some(v))
        else s;
      Pass(if s1.serviceType.None? then s1.(serviceType := Some(Unicast)) else s1, true, p.next)
    else if k == GotoTable then p.(next := Some(v))
    else p
  }

  /** The loop over the flow's instruction dictionary, in its order. */
  function InstrPass(p: Pass, ins: Instructions, keys: seq<InstrKey>): Pass
    requires forall k :: k in keys ==> k in ins.m
    decreases |keys|
  {
    if |keys| == 0 then p
    else InstrPass(InstrPassStep(p, keys[0], ins.m[keys[0]]), ins, keys[1..])
  }

  /** The highest table id in the store: tables above the current one bound the forward walk. */
  function Bound(st: Store): (r: nat)
    requires st.Valid()
    ensures forall t :: t in st.m ==> t <= r
  {
    if |st.order| == 0 then 0 else MaxOf(st.order)
  }

  /**
   * `forwardTable(f, s)`. The record gets `f`; a flow without a direction stops the walk after
   * that. An OUTPUT, or a group of a downstream non-VoIP record, ends it; otherwise the walk goes
   * on into every flow of the `gotoTable` that matches. A `gotoTable` at or below the flow's own
   * table is not followed.
   */
  function ForwardTable(st: Store, f: Flow, s: Service): Walk
    requires StoreOk(st)
    requires f.instructions.Valid()
    decreases Bound(st) - f.tableId, 1
  {
    var s1 := ForwardEntry(s, f);
    if f.flowType.None? then Walk(0, s1)
    else
      var p := InstrPass(Pass(ForwardHead(s1, f), false, None), f.instructions, f.instructions.order);
      if p.ended then Walk(1, p.service)
      else if p.next.Some? && p.next.value > f.tableId then
        var fs := MatchedFlows(st, f, p.next.value);
        assert forall g :: g in fs ==> g.tableId > f.tableId && InOwnTable(st, g);
        ForwardEach(st, f.tableId, fs, p.service)
      else Walk(0, p.service)
  }

  /** `g` is filed under its own table. */
  predicate InOwnTable(st: Store, g: Flow)
  {
    g.tableId in st.m && g in st.m[g.tableId]
  }

  /** The forward walks of the matched flows in turn, one record threaded through them all. */
  function ForwardEach(st: Store, from: nat, fs: seq<Flow>, s: Service): Walk
    requires StoreOk(st)
    requires forall g :: g in fs ==> g.tableId > from && InOwnTable(st, g)
    decreases Bound(st) - from, 0, |fs|
  {
    if |fs| == 0 then Walk(0, s)
    else
      var g := fs[0];
      assert g in fs;
      assert InOwnTable(st, g);
      assert g.tableId in st.m && g in st.m[g.tableId];
      assert g.instructions.Valid() && g.tableId <= Bound(st);
      var w := ForwardTable(st, g, s);
      var rest := ForwardEach(st, from, fs[1..], w.service);
      Walk(w.count + rest.count, rest.service)
  }

  /**
   * `forwardTable` as the source runs it: the loop over the instruction dictionary, then the loop
   * over the matched flows of the next table.
   */
  method ForwardTableLoop(st: Store, f: Flow, s: Service) returns (w: Walk)
    requires StoreOk(st)
    requires f.instructions.Valid()
    ensures w == ForwardTable(st, f, s)
    decreases Bound(st) - f.tableId, 1
  {
    var s1 := ForwardEntry(s, f);
    if f.flowType.None? {
      return Walk(0, s1);
    }
    var p := InstructionLoop(Pass(ForwardHead(s1, f), false, None), f.instructions);
    if p.ended {
      return Walk(1, p.service);
    }
    if p.next.None? || p.next.value <= f.tableId {
      return Walk(0, p.service);
    }
    var fs := MatchedFlows(st, f, p.next.value);
    assert forall g :: g in fs ==> g.tableId > f.tableId && InOwnTable(st, g);
    w := ForwardEachLoop(st, f.tableId, fs, p.service);
  }

  /** `for instruction in flowParams["instructions"].items()`. */
  method InstructionLoop(p0: Pass, ins: Instructions) returns (p: Pass)
    requires ins.Valid()
    ensures p == InstrPass(p0, ins, ins.order)
  {
    var keys := ins.order;
    p := p0;
    var i := 0;
    assert keys[0..] == keys;
    while i < |keys|
      invariant 0 <= i <= |keys|
      invariant InstrPass(p, ins, keys[i..]) == InstrPass(p0, ins, keys)
    {
      assert keys[i..][1..] == keys[i + 1..];
      p := InstrPassStep(p, keys[i], ins.m[keys[i]]);
      i := i + 1;
    }
    assert keys[i..] == [];
  }

  /** `for fwFlow in fwFlows: services.extend(self.forwardTable(fwFlow, service))`. */
  method ForwardEachLoop(st: Store, from: nat, fs: seq<Flow>, s: Service) returns (w: Walk)
    requires StoreOk(st)
    requires forall g :: g in fs ==> g.tableId > from && InOwnTable(st, g)
    ensures w == ForwardEach(st, from, fs, s)
    decreases Bound(st) - from, 0, |fs|
  {
    var count: nat := 0;
    var cur := s;
    var j := 0;
    assert fs[0..] == fs;
    while j < |fs|
      invariant 0 <= j <= |fs|
      invariant var rest := ForwardEach(st, from, fs[j..], cur);
        Walk(count + rest.count, rest.service) == ForwardEach(st, from, fs, s)
    {
      assert fs[j..][1..] == fs[j + 1..];
      var g := fs[j];
      assert g in fs;
      assert g.tableId in st.m && g in st.m[g.tableId];
      assert g.instructions.Valid() && g.tableId <= Bound(st);
      var wg := ForwardTableLoop(st, g, cur);
      count := count + wg.count;
      cur := wg.service;
      j := j + 1;
    }
    assert fs[j..] == [];
    return Walk(count, cur);
  }

  // ---------------------------------------------------------------- the instruction loop

  /** What the loop leaves alone, and what it is guaranteed to write. */
  lemma {:induction false} InstrPassKeeps(p: Pass, ins: Instructions, keys: seq<InstrKey>)
    requires forall k :: k in keys ==> k in ins.m
    ensures InstrPass(p, ins, keys).service.flowType == p.service.flowType
    ensures InstrPass(p, ins, keys).service.flowIds == p.service.flowIds
    ensures InstrPass(p, ins, keys).service.priorities == p.service.priorities
    ensures (InstrPass(p, ins, keys).service.serviceType == Some(Voip)) == (p.service.serviceType == Some(Voip))
    ensures p.service.serviceType.Some? ==> InstrPass(p, ins, keys).service.serviceType.Some?
    ensures p.ended ==> InstrPass(p, ins, keys).ended
    decreases |keys|
  {
    if |keys| > 0 {
      InstrPassKeeps(InstrPassStep(p, keys[0], ins.m[keys[0]]), ins, keys[1..]);
    }
  }

  /** The loop ends the record exactly on an OUTPUT, or on a group when `GroupEnds` holds. */
  lemma {:induction false} InstrPassEnds(p: Pass, ins: Instructions, keys: seq<InstrKey>)
    requires forall k :: k in keys ==> k in ins.m
    ensures InstrPass(p, ins, keys).ended <==>
      p.ended || OutPort in keys || (GroupId in keys && GroupEnds(p.service))
    decreases |keys|
  {
    if |keys| > 0 {
      var p' := InstrPassStep(p, keys[0], ins.m[keys[0]]);
      InstrPassEnds(p', ins, keys[1..]);
      assert GroupEnds(p'.service) == GroupEnds(p.service);
      assert forall k :: k in keys <==> k == keys[0] || k in keys[1..];
    }
  }

  /** A group that ends the record leaves it multicast with that group. */
  lemma {:induction false} InstrPassGroup(p: Pass, ins: Instructions, keys: seq<InstrKey>)
    requires forall k :: k in keys ==> k in ins.m
    requires Distinct(keys)
    ensures GroupId in keys && GroupEnds(p.service) ==>
      InstrPass(p, ins, keys).service.groupId == Some(ins.m[GroupId])
      && InstrPass(p, ins, keys).service.serviceType == Some(Multicast)
    ensures GroupId !in keys ==> InstrPass(p, ins, keys).service.groupId == p.service.groupId
    ensures GroupId !in keys && p.service.serviceType.Some? ==>
      InstrPass(p, ins, keys).service.serviceType == p.service.serviceType
    decreases |keys|
  {
    if |keys| > 0 {
      var p' := InstrPassStep(p, keys[0], ins.m[keys[0]]);
      assert Distinct(keys[1..]);
      assert keys[0] !in keys[1..];
      InstrPassGroup(p', ins, keys[1..]);
      assert forall k :: k in keys <==> k == keys[0] || k in keys[1..];
    }
  }

  /** An OUTPUT writes the port on the far side of the record's direction. */
  lemma {:induction false} InstrPassOutput(p: Pass, ins: Instructions, keys: seq<InstrKey>)
    requires forall k :: k in keys ==> k in ins.m
    requires Distinct(keys)
    ensures OutPort in keys && p.service.flowType == Some(Upstream) ==>
      InstrPass(p, ins, keys).service.nniPort == Some(ins.m[OutPort])
    ensures OutPort in keys && p.service.flowType == Some(Downstream) ==>
      InstrPass(p, ins, keys).service.onuPort == Some(ins.m[OutPort])
    ensures OutPort !in keys ==>
      InstrPass(p, ins, keys).service.nniPort == p.service.nniPort
      && InstrPass(p, ins, keys).service.onuPort == p.service.onuPort
    ensures OutPort in keys || p.service.serviceType.Some? ==> InstrPass(p, ins, keys).service.serviceType.Some?
    decreases |keys|
  {
    if |keys| > 0 {
      var p' := InstrPassStep(p, keys[0], ins.m[keys[0]]);
      assert Distinct(keys[1..]);
      assert keys[0] !in keys[1..];
      InstrPassOutput(p', ins, keys[1..]);
      assert forall k :: k in keys <==> k == keys[0] || k in keys[1..];
    }
  }

  /** `nextTable` is the `gotoTable` value. */
  lemma {:induction false} InstrPassNext(p: Pass, ins: Instructions, keys: seq<InstrKey>)
    requires forall k :: k in keys ==> k in ins.m
    requires Distinct(keys)
    ensures GotoTable in keys ==> InstrPass(p, ins, keys).next == Some(ins.m[GotoTable])
    ensures GotoTable !in keys ==> InstrPass(p, ins, keys).next == p.next
    decreases |keys|
  {
    if |keys| > 0 {
      var p' := InstrPassStep(p, keys[0], ins.m[keys[0]]);
      assert Distinct(keys[1..]);
      assert keys[0] !in keys[1..];
      InstrPassNext(p', ins, keys[1..]);
      assert forall k :: k in keys <==> k == keys[0] || k in keys[1..];
    }
  }

  // ---------------------------------------------------------------- forward properties

  /** `r` has gained as many flow ids as priorities since `s`, and keeps the ids of `s` in front. */
  predicate Grows(s: Service, r: Service)
  {
    |r.flowIds| - |r.priorities| == |s.flowIds| - |s.priorities| && s.flowIds <= r.flowIds
  }

  lemma GrowsTrans(a: Service, b: Service, c: Service)
    requires Grows(a, b) && Grows(b, c)
    ensures Grows(a, c)
  {
    assert a.flowIds == b.flowIds[..|a.flowIds|];
    assert b.flowIds == c.flowIds[..|b.flowIds|];
    assert c.flowIds[..|b.flowIds|][..|a.flowIds|] == c.flowIds[..|a.flowIds|];
  }

  /**
   * Every forward walk appends a flow id and a priority for each flow it visits: the difference
   * of their lengths is kept, and the record's ids followed by this flow's id stay in front.
   */
  lemma {:induction false} ForwardBalanced(st: Store, f: Flow, s: Service)
    requires StoreOk(st)
    requires f.instructions.Valid()
    ensures Grows(s, ForwardTable(st, f, s).service)
    ensures s.flowIds + [f.flowId] <= ForwardTable(st, f, s).service.flowIds
    decreases Bound(st) - f.tableId, 1
  {
    var s1 := ForwardEntry(s, f);
    assert Grows(s, s1);
    if f.flowType.Some? {
      var p0 := Pass(ForwardHead(s1, f), false, None);
      var p := InstrPass(p0, f.instructions, f.instructions.order);
      InstrPassKeeps(p0, f.instructions, f.instructions.order);
      assert Grows(s1, p.service);
      GrowsTrans(s, s1, p.service);
      if !p.ended && p.next.Some? && p.next.value > f.tableId {
        var fs := MatchedFlows(st, f, p.next.value);
        assert forall g :: g in fs ==> g.tableId > f.tableId && InOwnTable(st, g);
        ForwardEachBalanced(st, f.tableId, fs, p.service);
        var r := ForwardEach(st, f.tableId, fs, p.service).service;
        GrowsTrans(s, p.service, r);
        GrowsTrans(s1, p.service, r);
      }
    }
  }

  lemma {:induction false} ForwardEachBalanced(st: Store, from: nat, fs: seq<Flow>, s: Service)
    requires StoreOk(st)
    requires forall g :: g in fs ==> g.tableId > from && InOwnTable(st, g)
    ensures Grows(s, ForwardEach(st, from, fs, s).service)
    decreases Bound(st) - from, 0, |fs|
  {
    if |fs| > 0 {
      var g := fs[0];
      assert g in fs;
      ForwardBalanced(st, g, s);
      var w := ForwardTable(st, g, s);
      ForwardEachBalanced(st, from, fs[1..], w.service);
      GrowsTrans(s, w.service, ForwardEach(st, from, fs[1..], w.service).service);
    }
  }

  /**
   * How a flow with a direction ends the walk: an OUTPUT, or a group on a downstream record that
   * is not VoIP, appends the record once; a group does so with the record multicast and the group
   * written, an OUTPUT with the NNI port (upstream record) or ONU port (downstream record) written.
   * Without either and without a forward `gotoTable` nothing is appended.
   */
  lemma ForwardEnds(st: Store, f: Flow, s: Service)
    requires StoreOk(st)
    requires f.instructions.Valid()
    requires f.flowType.Some?
    ensures var h := ForwardHead(ForwardEntry(s, f), f);
      var w := ForwardTable(st, f, s);
      && (HasInstr(f, OutPort) || (HasInstr(f, GroupId) && GroupEnds(h)) ==> w.count == 1)
      && (HasInstr(f, GroupId) && GroupEnds(h) ==>
            w.service.groupId == Instr(f, GroupId) && w.service.serviceType == Some(Multicast))
      && (HasInstr(f, OutPort) && h.flowType == Some(Upstream) ==> w.service.nniPort == Instr(f, OutPort))
      && (HasInstr(f, OutPort) && h.flowType == Some(Downstream) ==> w.service.onuPort == Instr(f, OutPort))
      && (HasInstr(f, OutPort) ==> w.service.serviceType.Some?)
      && ((!HasInstr(f, OutPort) && !(HasInstr(f, GroupId) && GroupEnds(h))
           && (Instr(f, GotoTable).None? || Instr(f, GotoTable).value <= f.tableId)) ==> w.count == 0)
  {
    var ins := f.instructions;
    var p0 := Pass(ForwardHead(ForwardEntry(s, f), f), false, None);
    InstrPassKeeps(p0, ins, ins.order);
    InstrPassEnds(p0, ins, ins.order);
    InstrPassGroup(p0, ins, ins.order);
    InstrPassOutput(p0, ins, ins.order);
    InstrPassNext(p0, ins, ins.order);
  }

  /** A flow without a direction appends nothing, after writing its id and priority. */
  lemma NoDirectionStops(st: Store, f: Flow, s: Service)
    requires StoreOk(st)
    requires f.instructions.Valid()
    requires f.flowType.None?
    ensures ForwardTable(st, f, s) == Walk(0, ForwardEntry(s, f))
  {
  }

  // ---------------------------------------------------------------- matchFlows

  /** `count` references to the one final record. */
  function Copies(w: Walk): (r: seq<Service>)
    ensures |r| == w.count && forall i :: 0 <= i < |r| ==> r[i] == w.service
  {
    seq(w.count, _ => w.service)
  }

  /** The record the forward walk starts from: the backward walk's above table 0, else empty. */
  function Seed(st: Store, f: Flow): Option<Service>
    requires StoreOk(st)
  {
    if f.tableId > 0 then Backward(st, f, NewService) else Some(NewService)
  }

  /**
   * `matchFlows(cookie)`: `None` for an unknown cookie, `[]` when the backward walk fails, and
   * otherwise the forward walk's records.
   */
  function MatchFlows(st: Store, cookie: nat): Option<seq<Service>>
    requires StoreOk(st)
  {
    match GetFlow(st, cookie)
    case None => None
    case Some(f) =>
      assert f.instructions.Valid();
      match Seed(st, f)
      case None => Some([])
      case Some(s) => Some(Copies(ForwardTable(st, f, s)))
  }

  /** A seed exists exactly when the backward chain does, and carries its ids, balanced. */
  lemma SeedIds(st: Store, f: Flow)
    requires StoreOk(st)
    ensures Seed(st, f).Some? <==> BackChain(st, f).Some?
    ensures Seed(st, f).Some? ==>
      && Seed(st, f).value.flowIds == Ids(BackChain(st, f).value)
      && |Seed(st, f).value.flowIds| == |Seed(st, f).value.priorities| == f.tableId
  {
    if f.tableId > 0 {
      BackwardFollowsChain(st, f, NewService);
      if Backward(st, f, NewService).Some? {
        BackwardBalanced(st, f, NewService);
        assert Ids(BackChain(st, f).value) + [] == Ids(BackChain(st, f).value);
      }
    } else {
      assert BackChain(st, f) == Some([]);
    }
  }

  /** `matchFlows` fails exactly for an unknown cookie. */
  lemma MatchFlowsUnknown(st: Store, cookie: nat)
    requires StoreOk(st)
    ensures MatchFlows(st, cookie).None? <==> forall t, f :: t in st.m && f in st.m[t] ==> f.flowId != cookie
  {
  }

  /** The records of `matchFlows` are all the same record, with as many flow ids as priorities. */
  lemma MatchFlowsShape(st: Store, cookie: nat)
    requires StoreOk(st)
    requires MatchFlows(st, cookie).Some?
    ensures var svcs := MatchFlows(st, cookie).value;
      forall i :: 0 <= i < |svcs| ==> svcs[i] == svcs[0] && |svcs[i].flowIds| == |svcs[i].priorities|
  {
    var f := GetFlow(st, cookie).value;
    assert f.instructions.Valid();
    SeedIds(st, f);
    if Seed(st, f).Some? {
      ForwardBalanced(st, f, Seed(st, f).value);
    }
  }

  /**
   * The flow ids of a `matchFlows` record: the backward chain's, table 0 first, then the flow of
   * the cookie, then those of the forward walk.
   */
  lemma MatchFlowsIds(st: Store, cookie: nat)
    requires StoreOk(st)
    requires MatchFlows(st, cookie).Some? && |MatchFlows(st, cookie).value| > 0
    ensures var f := GetFlow(st, cookie).value;
      var ids := MatchFlows(st, cookie).value[0].flowIds;
      BackChain(st, f).Some?
      && |ids| > f.tableId
      && ids[..f.tableId] == Ids(BackChain(st, f).value)
      && ids[f.tableId] == cookie
  {
    var f := GetFlow(st, cookie).value;
    assert f.instructions.Valid();
    SeedIds(st, f);
    var s := Seed(st, f).value;
    ForwardBalanced(st, f, s);
    PrefixThen(s.flowIds, cookie, ForwardTable(st, f, s).service.flowIds);
  }

  lemma PrefixThen(a: seq<nat>, x: nat, ids: seq<nat>)
    requires a + [x] <= ids
    ensures |ids| > |a| && ids[..|a|] == a && ids[|a|] == x
  {
    assert ids[..|a|] == (a + [x])[..|a|];
  }

  // ---------------------------------------------------------------- matchPorts

  /** An entry of `deletedPorts`: `{"port_no": ..., "flowType": ...}`. */
  datatype DeletedPort = DeletedPort(portNo: nat, flowType: Direction)

  /** The record as the source passes it to `get_groupsByPort`. */
  function AsRecord(p: DeletedPort): MetersGroups.PortRef
  {
    MetersGroups.PortRecord(p.portNo, p.flowType == Downstream)
  }

  /**
   * The services of one deleted port: the groups found for `ref`, the flows of that port, and the
   * `matchFlows` records of each. `None` when the store is empty for a downstream port (the
   * `ValueError` of `max`).
   */
  function PortServices(st: Store, groups: seq<MetersGroups.Group>, p: DeletedPort, ref: MetersGroups.PortRef)
    : Option<seq<Service>>
    requires StoreOk(st)
  {
    var groupIds := MetersGroups.GroupsByPort(groups, ref);
    match PortMatchedFlows(st, p.portNo, p.flowType, groupIds)
    case None => None
    case Some(fl) => ServicesOf(st, fl)
  }

  /** `acc + rest`, where a failure anywhere in `rest` fails the whole. */
  function Prepend(acc: seq<Service>, rest: Option<seq<Service>>): (r: Option<seq<Service>>)
    ensures rest.None? <==> r.None?
    ensures r.Some? ==> r.value == acc + rest.value
  {
    match rest
    case None => None
    case Some(x) => Some(acc + x)
  }

  lemma PrependJoin(a: seq<Service>, b: seq<Service>, rest: Option<seq<Service>>)
    ensures Prepend(a, Prepend(b, rest)) == Prepend(a + b, rest)
    ensures Prepend([], rest) == rest
  {
    if rest.Some? {
      assert a + (b + rest.value) == (a + b) + rest.value;
      assert [] + rest.value == rest.value;
    }
  }

  /** `services.extend(matchFlows(f))` for each flow in turn. */
  function ServicesOf(st: Store, fl: seq<Flow>): Option<seq<Service>>
    requires StoreOk(st)
  {
    if |fl| == 0 then Some([])
    else
      match MatchFlows(st, fl[0].flowId)
      case None => None
      case Some(here) => Prepend(here, ServicesOf(st, fl[1..]))
  }

  function PortsServices(st: Store, groups: seq<MetersGroups.Group>, ports: seq<DeletedPort>, asWritten: bool)
    : Option<seq<Service>>
    requires StoreOk(st)
  {
    if |ports| == 0 then Some([])
    else
      var ref := if asWritten then AsRecord(ports[0]) else MetersGroups.PortNumber(ports[0].portNo);
      match PortServices(st, groups, ports[0], ref)
      case None => None
      case Some(here) => Prepend(here, PortsServices(st, groups, ports[1..], asWritten))
  }

  /**
   * `matchPorts(portsList)` as written: the whole port record is handed to `get_groupsByPort`,
   * which compares it with port numbers.
   */
  method MatchPortsAsWritten(st: Store, groups: seq<MetersGroups.Group>, ports: seq<DeletedPort>)
    returns (r: Option<seq<Service>>)
    requires StoreOk(st)
    ensures r == PortsServices(st, groups, ports, true)
  {
    r := MatchPortsLoop(st, groups, ports, true);
  }

  /** `matchPorts(portsList)` with `get_groupsByPort(port["port_no"])`. */
  method MatchPorts(st: Store, groups: seq<MetersGroups.Group>, ports: seq<DeletedPort>)
    returns (r: Option<seq<Service>>)
    requires StoreOk(st)
    ensures r == PortsServices(st, groups, ports, false)
  {
    r := MatchPortsLoop(st, groups, ports, false);
  }

  /** The inner loop of `matchPorts`: the records of each flow in turn. */
  method ServicesOfLoop(st: Store, fl: seq<Flow>) returns (r: Option<seq<Service>>)
    requires StoreOk(st)
    ensures r == ServicesOf(st, fl)
  {
    var j := 0;
    var here: seq<Service> := [];
    assert fl[0..] == fl;
    PrependJoin([], [], ServicesOf(st, fl));
    while j < |fl|
      invariant 0 <= j <= |fl|
      invariant ServicesOf(st, fl) == Prepend(here, ServicesOf(st, fl[j..]))
    {
      assert fl[j..][1..] == fl[j + 1..];
      var svcs := MatchFlows(st, fl[j].flowId);
      if svcs.None? {
        assert ServicesOf(st, fl[j..]).None?;
        return None;
      }
      PrependJoin(here, svcs.value, ServicesOf(st, fl[j + 1..]));
      here := here + svcs.value;
      j := j + 1;
    }
    assert fl[j..] == [];
    assert here + [] == here;
    r := Some(here);
  }

  /** One port of `matchPorts`: its groups, its flows, and the records of each flow. */
  method PortServicesLoop(st: Store, groups: seq<MetersGroups.Group>, p: DeletedPort, ref: MetersGroups.PortRef)
    returns (r: Option<seq<Service>>)
    requires StoreOk(st)
    ensures r == PortServices(st, groups, p, ref)
  {
    var groupIds := MetersGroups.GroupsByPort(groups, ref);
    var found := PortMatchedFlows(st, p.portNo, p.flowType, groupIds);
    if found.None? {
      return None;
    }
    r := ServicesOfLoop(st, found.value);
  }

  method MatchPortsLoop(st: Store, groups: seq<MetersGroups.Group>, ports: seq<DeletedPort>, asWritten: bool)
    returns (r: Option<seq<Service>>)
    requires StoreOk(st)
    ensures r == PortsServices(st, groups, ports, asWritten)
  {
    var services: seq<Service> := [];
    var i := 0;
    assert ports[0..] == ports;
    PrependJoin([], [], PortsServices(st, groups, ports, asWritten));
    while i < |ports|
      invariant 0 <= i <= |ports|
      invariant PortsServices(st, groups, ports, asWritten) ==
        Prepend(services, PortsServices(st, groups, ports[i..], asWritten))
    {
      assert ports[i..][1..] == ports[i + 1..];
      var ref := if asWritten then AsRecord(ports[i]) else MetersGroups.PortNumber(ports[i].portNo);
      var here := PortServicesLoop(st, groups, ports[i], ref);
      if here.None? {
        assert PortsServices(st, groups, ports[i..], asWritten).None?;
        return None;
      }
      PrependJoin(services, here.value, PortsServices(st, groups, ports[i + 1..], asWritten));
      services := services + here.value;
      i := i + 1;
    }
    assert ports[i..] == [];
    assert services + [] == services;
    r := Some(services);
  }

  /**
   * As written, the port record never equals a port number, so no group is found for a port:
   * a downstream flow that reaches a deleted port only through its group is not picked up.
   */
  lemma AsWrittenMissesGroupFlow(st: Store, groups: seq<MetersGroups.Group>, p: DeletedPort, f: Flow)
    requires StoreOk(st)
    requires p.flowType == Downstream
    requires Instr(f, OutPort) != Some(p.portNo)
    requires PortMatchedFlows(st, p.portNo, p.flowType, MetersGroups.GroupsByPort(groups, AsRecord(p))).Some?
    ensures f !in PortMatchedFlows(st, p.portNo, p.flowType, MetersGroups.GroupsByPort(groups, AsRecord(p))).value
  {
    MetersGroups.RecordFindsNoGroup(groups, p.portNo, true);
  }

  /**
   * With the port number passed, a stored downstream flow whose group has a bucket that outputs to
   * the deleted port is picked up.
   */
  lemma CorrectedFindsGroupFlow(st: Store, groups: seq<MetersGroups.Group>, p: DeletedPort, f: Flow,
                                g: MetersGroups.Group)
    requires StoreOk(st)
    requires p.flowType == Downstream
    requires Stored(st, f)
    requires g in groups && Instr(f, GroupId) == Some(g.groupId)
    requires MetersGroups.OutputsTo(g, MetersGroups.PortNumber(p.portNo))
    ensures PortMatchedFlows(st, p.portNo, p.flowType, MetersGroups.GroupsByPort(groups, MetersGroups.PortNumber(p.portNo))).Some?
    ensures f in PortMatchedFlows(st, p.portNo, p.flowType, MetersGroups.GroupsByPort(groups, MetersGroups.PortNumber(p.portNo))).value
  {
    var t :| t in st.m && f in st.m[t];
    assert t in st.order;
  }
}
