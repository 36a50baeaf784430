/**
 * The calls the OLT device makes into the OLT's gRPC service and into its OMCI layer, and the
 * call sequences of the install and uninstall paths over `olt_services`, as values.
 *
 * Every call is logged; the answer it gets is an arbitrary boolean, fixed by an oracle that sees
 * the call and its position in the log. The OMCI configure and remove sequences are one logged
 * call each; no caller reads their result.
 */
module Hardware {
  import opened Wrappers
  import opened Services
  import OpenFlow

  /** The kind in a service key `(intf_id, onu_id, uni_id, kind)`. */
  datatype Kind = Internet | Voip | Multicast

  /** A key of `olt_services`. */
  datatype Key = Key(intfId: nat, onuId: nat, uniId: nat, kind: Kind)

  /** The one multicast service: `(0, 0, 0, "multicast")`. */
  const MulticastKey := Key(0, 0, 0, Multicast)

  /**
   * One call of the OLT device. `voip` on the OMCI calls tells the VoIP routines
   * (`omci_configure_VoipService`, `omci_remove_VoipService`) from the Internet ones.
   */
  datatype HwCall =
    | CreateScheds(scheds: Option<TrafficSchedulers>)
    | RemoveScheds(scheds: Option<TrafficSchedulers>)
    | CreateQueues(queues: Option<TrafficQueues>)
    | RemoveQueues(queues: Option<TrafficQueues>)
    | AddFlow(flow: Option<Flow>)
    | RemoveFlow(flow: Option<Flow>)
    | PerformGroup(group: Group)
    | RemoveGroup(group: Group)
    | OmciConfigure(key: Key, dir: OpenFlow.Direction, install: bool, voip: bool)
    | OmciRemove(key: Key, dir: OpenFlow.Direction, delete: bool, voip: bool)
    | OmciConfigureMulticast
    | OmciRemoveMulticast

  /** The answer to the call at a position of the call log. */
  type Oracle = iset<(nat, HwCall)>

  /** Whether the OLT accepts call `c` at log position `n`. */
  predicate Accepts(acc: Oracle, n: nat, c: HwCall)
  {
    (n, c) in acc
  }

  /** A call that creates something on the OLT. */
  predicate IsCreate(c: HwCall)
  {
    c.CreateScheds? || c.CreateQueues? || c.AddFlow? || c.PerformGroup?
  }

  /** The call that removes what a creating call made. */
  function Undo(c: HwCall): HwCall
  {
    match c
    case CreateScheds(s) => RemoveScheds(s)
    case CreateQueues(q) => RemoveQueues(q)
    case AddFlow(f) => RemoveFlow(f)
    case PerformGroup(g) => RemoveGroup(g)
    case _ => c
  }

  /** The first call of `plan`, issued from log position `n` on, that the OLT refuses. */
  function FirstRefused(acc: Oracle, n: nat, plan: seq<HwCall>): (r: Option<nat>)
    ensures r.Some? ==> r.value < |plan|
    decreases |plan|
  {
    if |plan| == 0 then None
    else if !Accepts(acc, n, plan[0]) then Some(0)
    else match FirstRefused(acc, n + 1, plan[1..])
      case None => None
      case Some(k) => Some(k + 1)
  }

  /** The refusal found is refused and every call before it accepted; none found, all accepted. */
  lemma {:induction false} FirstRefusedMeans(acc: Oracle, n: nat, plan: seq<HwCall>)
    ensures var r := FirstRefused(acc, n, plan);
      && (r.Some? ==> !Accepts(acc, n + r.value, plan[r.value]))
      && (r.Some? ==> forall j :: 0 <= j < r.value ==> Accepts(acc, n + j, plan[j]))
      && (r.None? ==> forall j :: 0 <= j < |plan| ==> Accepts(acc, n + j, plan[j]))
    decreases |plan|
  {
    if |plan| > 0 && Accepts(acc, n, plan[0]) {
      FirstRefusedMeans(acc, n + 1, plan[1..]);
      var r := FirstRefused(acc, n, plan);
      if r.Some? {
        forall j | 0 <= j < r.value
          ensures Accepts(acc, n + j, plan[j])
        {
          if j > 0 {
            assert plan[j] == plan[1..][j - 1];
          }
        }
      } else {
        forall j | 0 <= j < |plan|
          ensures Accepts(acc, n + j, plan[j])
        {
          if j > 0 {
            assert plan[j] == plan[1..][j - 1];
          }
        }
      }
    }
  }

  lemma {:induction false} FirstRefusedAt(acc: Oracle, n: nat, plan: seq<HwCall>, k: nat)
    requires k < |plan| && !Accepts(acc, n + k, plan[k])
    requires forall j :: 0 <= j < k ==> Accepts(acc, n + j, plan[j])
    ensures FirstRefused(acc, n, plan) == Some(k)
    decreases k
  {
    if k > 0 {
      assert Accepts(acc, n + 0, plan[0]);
      FirstRefusedAt(acc, n + 1, plan[1..], k - 1);
    }
  }

  lemma {:induction false} FirstRefusedNone(acc: Oracle, n: nat, plan: seq<HwCall>)
    requires forall j :: 0 <= j < |plan| ==> Accepts(acc, n + j, plan[j])
    ensures FirstRefused(acc, n, plan).None?
    decreases |plan|
  {
    if |plan| > 0 {
      assert Accepts(acc, n + 0, plan[0]);
      FirstRefusedNone(acc, n + 1, plan[1..]);
    }
  }

  /** A plan run in two parts: a refusal in the first part ends it; otherwise the second part runs. */
  lemma FirstRefusedAppend(acc: Oracle, n: nat, a: seq<HwCall>, b: seq<HwCall>)
    ensures FirstRefused(acc, n, a + b) ==
      match FirstRefused(acc, n, a)
      case Some(k) => Some(k)
      case None =>
        match FirstRefused(acc, n + |a|, b)
        case Some(k) => Some(|a| + k)
        case None => None
  {
    var p := a + b;
    FirstRefusedMeans(acc, n, a);
    match FirstRefused(acc, n, a)
    case Some(k) =>
      FirstRefusedAt(acc, n, p, k);
    case None =>
      FirstRefusedMeans(acc, n + |a|, b);
      match FirstRefused(acc, n + |a|, b)
      case Some(k) =>
        forall j | 0 <= j < |a| + k
          ensures Accepts(acc, n + j, p[j])
        {
          if j >= |a| {
            assert Accepts(acc, n + |a| + (j - |a|), b[j - |a|]);
          }
        }
        FirstRefusedAt(acc, n, p, |a| + k);
      case None =>
        forall j | 0 <= j < |p|
          ensures Accepts(acc, n + j, p[j])
        {
          if j >= |a| {
            assert Accepts(acc, n + |a| + (j - |a|), b[j - |a|]);
          }
        }
        FirstRefusedNone(acc, n, p);
  }

  /** The removals of the calls `cs`, last call first. */
  function Undos(cs: seq<HwCall>): (r: seq<HwCall>)
    ensures |r| == |cs|
    ensures forall i :: 0 <= i < |cs| ==> r[i] == Undo(cs[|cs| - 1 - i])
  {
    if |cs| == 0 then [] else [Undo(cs[|cs| - 1])] + Undos(cs[..|cs| - 1])
  }

  /** The calls a run issued and whether it succeeded. */
  datatype Attempt = Attempt(log: seq<HwCall>, ok: bool)

  /**
   * A creating sequence with rollback: the calls run in order until one is refused; then that
   * call and every one before it are removed again, last first.
   */
  function Transaction(acc: Oracle, n: nat, plan: seq<HwCall>): Attempt
  {
    match FirstRefused(acc, n, plan)
    case None => Attempt(plan, true)
    case Some(k) => Attempt(plan[..k + 1] + Undos(plan[..k + 1]), false)
  }

  /** A removing sequence: the calls run in order and the first refusal stops it, nothing undone. */
  function Teardown(acc: Oracle, n: nat, plan: seq<HwCall>): Attempt
  {
    match FirstRefused(acc, n, plan)
    case None => Attempt(plan, true)
    case Some(k) => Attempt(plan[..k + 1], false)
  }

  /**
   * A transaction succeeds exactly when the OLT accepts every call, and then it issues the plan
   * once. A failed one issues a prefix of the plan that ends at the refused call, followed by its
   * mirror image: the call at distance `i` from the end removes what the `i`-th call created, so
   * everything created is removed again.
   */
  lemma TransactionRollsBack(acc: Oracle, n: nat, plan: seq<HwCall>)
    ensures Transaction(acc, n, plan).ok <==> forall j :: 0 <= j < |plan| ==> Accepts(acc, n + j, plan[j])
    ensures Transaction(acc, n, plan).ok ==> Transaction(acc, n, plan).log == plan
    ensures !Transaction(acc, n, plan).ok ==>
      var log := Transaction(acc, n, plan).log;
      var h := |log| / 2;
      && |log| == 2 * h && 0 < h <= |plan|
      && log[..h] == plan[..h]
      && !Accepts(acc, n + h - 1, plan[h - 1])
      && (forall i :: 0 <= i < h ==> log[|log| - 1 - i] == Undo(log[i]))
  {
    FirstRefusedMeans(acc, n, plan);
    match FirstRefused(acc, n, plan)
    case None =>
    case Some(k) =>
      MirrorLog(plan[..k + 1]);
  }

  /** Calls followed by their removals, last first: each call at distance `i` from the end undoes the `i`-th. */
  lemma MirrorLog(pre: seq<HwCall>)
    ensures var log := pre + Undos(pre);
      && |log| == 2 * |pre| && log[..|pre|] == pre
      && forall i :: 0 <= i < |pre| ==> log[|log| - 1 - i] == Undo(log[i])
  {
    var log := pre + Undos(pre);
    assert log[..|pre|] == pre;
    forall i | 0 <= i < |pre|
      ensures log[|log| - 1 - i] == Undo(log[i])
    {
      assert log[|log| - 1 - i] == Undos(pre)[|pre| - 1 - i];
    }
  }

  /** A failed transaction removes everything it created. */
  lemma TransactionRemovesCreated(acc: Oracle, n: nat, plan: seq<HwCall>, c: HwCall)
    requires !Transaction(acc, n, plan).ok
    requires c in Transaction(acc, n, plan).log[..|Transaction(acc, n, plan).log| / 2]
    ensures Undo(c) in Transaction(acc, n, plan).log
  {
    TransactionRollsBack(acc, n, plan);
    var log := Transaction(acc, n, plan).log;
    var i :| 0 <= i < |log| / 2 && log[..|log| / 2][i] == c;
    assert log[|log| - 1 - i] == Undo(c);
  }

  /**
   * A teardown succeeds exactly when every call is accepted; it always issues a prefix of the
   * plan, and a failed one ends at the refused call and skips the rest.
   */
  lemma TeardownStops(acc: Oracle, n: nat, plan: seq<HwCall>)
    ensures Teardown(acc, n, plan).ok <==> forall j :: 0 <= j < |plan| ==> Accepts(acc, n + j, plan[j])
    ensures Teardown(acc, n, plan).log <= plan
    ensures Teardown(acc, n, plan).ok ==> Teardown(acc, n, plan).log == plan
    ensures !Teardown(acc, n, plan).ok ==>
      var log := Teardown(acc, n, plan).log;
      |log| > 0 && !Accepts(acc, n + |log| - 1, log[|log| - 1])
  {
    FirstRefusedMeans(acc, n, plan);
  }

  // ---------------------------------------------------------------- unicast services

  /** `install_*Service` in one direction: schedulers, then queues, then the flow. */
  function InstallPlan(s: TrafficSchedulers, q: TrafficQueues, f: Option<Flow>): seq<HwCall>
  {
    [CreateScheds(Some(s)), CreateQueues(Some(q)), AddFlow(f)]
  }

  /** `uninstall_*Service` in one direction: the flow, then the queues, then the schedulers. */
  function RemovePlan(s: TrafficSchedulers, q: TrafficQueues, f: Option<Flow>): seq<HwCall>
  {
    [RemoveFlow(f), RemoveQueues(Some(q)), RemoveScheds(Some(s))]
  }

  /** Uninstalling issues exactly the removals of what installing created, in reverse order. */
  lemma RemovePlanUndoesInstall(s: TrafficSchedulers, q: TrafficQueues, f: Option<Flow>)
    ensures RemovePlan(s, q, f) == Undos(InstallPlan(s, q, f))
    ensures forall c :: c in InstallPlan(s, q, f) ==> IsCreate(c)
  {
    assert InstallPlan(s, q, f)[..2] == [CreateScheds(Some(s)), CreateQueues(Some(q))];
    assert InstallPlan(s, q, f)[..2][..1] == [CreateScheds(Some(s))];
  }

  /** The three-step transaction of a direction, case by case. */
  lemma InstallCases(acc: Oracle, n: nat, s: TrafficSchedulers, q: TrafficQueues, f: Option<Flow>)
    ensures var a, b, c := CreateScheds(Some(s)), CreateQueues(Some(q)), AddFlow(f);
            var a', b', c' := RemoveScheds(Some(s)), RemoveQueues(Some(q)), RemoveFlow(f);
      Transaction(acc, n, InstallPlan(s, q, f)) ==
        if !Accepts(acc, n, a) then Attempt([a, a'], false)
        else if !Accepts(acc, n + 1, b) then Attempt([a, b, b', a'], false)
        else if !Accepts(acc, n + 2, c) then Attempt([a, b, c, c', b', a'], false)
        else Attempt([a, b, c], true)
  {
    var p := InstallPlan(s, q, f);
    FirstRefusedMeans(acc, n, p);
    assert p[1..] == [p[1], p[2]] && p[1..][1..] == [p[2]] && p[1..][1..][1..] == [];
    assert p[..1] == [p[0]] && p[..2] == [p[0], p[1]] && p[..3] == p;
  }

  /** The three-step teardown of a direction, case by case. */
  lemma RemoveCases(acc: Oracle, n: nat, s: TrafficSchedulers, q: TrafficQueues, f: Option<Flow>)
    ensures var a, b, c := RemoveFlow(f), RemoveQueues(Some(q)), RemoveScheds(Some(s));
      Teardown(acc, n, RemovePlan(s, q, f)) ==
        if !Accepts(acc, n, a) then Attempt([a], false)
        else if !Accepts(acc, n + 1, b) then Attempt([a, b], false)
        else if !Accepts(acc, n + 2, c) then Attempt([a, b, c], false)
        else Attempt([a, b, c], true)
  {
    var p := RemovePlan(s, q, f);
    FirstRefusedMeans(acc, n, p);
    assert p[1..] == [p[1], p[2]] && p[1..][1..] == [p[2]] && p[1..][1..][1..] == [];
    assert p[..1] == [p[0]] && p[..2] == [p[0], p[1]] && p[..3] == p;
  }

  /** How an install run as written ends: as a transaction, or raising with the calls made so far. */
  datatype RunAsWritten = Completed(a: Attempt) | Unbound(log: seq<HwCall>)

  /**
   * The upstream half of `install_*Service` as written: when the OLT refuses the upstream
   * queues the code removes `dwQueues`, a variable only the downstream half assigns. Every
   * caller installs one direction per call, so the name is unbound and the method raises
   * `UnboundLocalError` after the two calls, leaving the schedulers created.
   */
  function UpstreamInstallAsWritten(acc: Oracle, n: nat, s: TrafficSchedulers, q: TrafficQueues, f: Option<Flow>)
    : RunAsWritten
  {
    var plan := InstallPlan(s, q, f);
    if FirstRefused(acc, n, plan) == Some(1) then Unbound(plan[..2]) else Completed(Transaction(acc, n, plan))
  }

  /**
   * An upstream queue refusal as written raises with the schedulers created and never removed;
   * the intended code, `remove_traffic_queues(upQueues)`, is the transaction, which removes both.
   */
  lemma UpstreamQueueRefusalLeaks(acc: Oracle, n: nat, s: TrafficSchedulers, q: TrafficQueues, f: Option<Flow>)
    requires Accepts(acc, n, CreateScheds(Some(s))) && !Accepts(acc, n + 1, CreateQueues(Some(q)))
    ensures UpstreamInstallAsWritten(acc, n, s, q, f) == Unbound([CreateScheds(Some(s)), CreateQueues(Some(q))])
    ensures RemoveScheds(Some(s)) !in UpstreamInstallAsWritten(acc, n, s, q, f).log
    ensures Transaction(acc, n, InstallPlan(s, q, f)).log
         == [CreateScheds(Some(s)), CreateQueues(Some(q)), RemoveQueues(Some(q)), RemoveScheds(Some(s))]
  {
    InstallCases(acc, n, s, q, f);
    var p := InstallPlan(s, q, f);
    FirstRefusedAt(acc, n, p, 1);
    assert p[..2] == [CreateScheds(Some(s)), CreateQueues(Some(q))];
  }

  /** The concrete case: an OLT that refuses every queue. */
  lemma RefusedQueuesExample(s: TrafficSchedulers, q: TrafficQueues, f: Option<Flow>)
    ensures UpstreamInstallAsWritten(iset i: nat, c: HwCall | !c.CreateQueues? :: (i, c), 0, s, q, f).Unbound?
  {
    UpstreamQueueRefusalLeaks(iset i: nat, c: HwCall | !c.CreateQueues? :: (i, c), 0, s, q, f);
  }

  /** Outside that case, the code as written is the transaction. */
  lemma UpstreamAsWrittenOtherwise(acc: Oracle, n: nat, s: TrafficSchedulers, q: TrafficQueues, f: Option<Flow>)
    requires !(Accepts(acc, n, CreateScheds(Some(s))) && !Accepts(acc, n + 1, CreateQueues(Some(q))))
    ensures UpstreamInstallAsWritten(acc, n, s, q, f) == Completed(Transaction(acc, n, InstallPlan(s, q, f)))
  {
    FirstRefusedMeans(acc, n, InstallPlan(s, q, f));
  }

  // ---------------------------------------------------------------- the multicast service

  function CreateAllScheds(ss: seq<Option<TrafficSchedulers>>): (r: seq<HwCall>)
    ensures |r| == |ss| && forall i :: 0 <= i < |ss| ==> r[i] == CreateScheds(ss[i])
  {
    seq(|ss|, i requires 0 <= i < |ss| => CreateScheds(ss[i]))
  }

  function RemoveAllScheds(ss: seq<Option<TrafficSchedulers>>): (r: seq<HwCall>)
    ensures |r| == |ss| && forall i :: 0 <= i < |ss| ==> r[i] == RemoveScheds(ss[i])
  {
    seq(|ss|, i requires 0 <= i < |ss| => RemoveScheds(ss[i]))
  }

  function CreateAllQueues(qs: seq<Option<TrafficQueues>>): (r: seq<HwCall>)
    ensures |r| == |qs| && forall i :: 0 <= i < |qs| ==> r[i] == CreateQueues(qs[i])
  {
    seq(|qs|, i requires 0 <= i < |qs| => CreateQueues(qs[i]))
  }

  function RemoveAllQueues(qs: seq<Option<TrafficQueues>>): (r: seq<HwCall>)
    ensures |r| == |qs| && forall i :: 0 <= i < |qs| ==> r[i] == RemoveQueues(qs[i])
  {
    seq(|qs|, i requires 0 <= i < |qs| => RemoveQueues(qs[i]))
  }

  function AddAllFlows(fs: seq<Flow>): (r: seq<HwCall>)
    ensures |r| == |fs| && forall i :: 0 <= i < |fs| ==> r[i] == AddFlow(Some(fs[i]))
  {
    seq(|fs|, i requires 0 <= i < |fs| => AddFlow(Some(fs[i])))
  }

  function RemoveAllFlows(fs: seq<Flow>): (r: seq<HwCall>)
    ensures |r| == |fs| && forall i :: 0 <= i < |fs| ==> r[i] == RemoveFlow(Some(fs[i]))
  {
    seq(|fs|, i requires 0 <= i < |fs| => RemoveFlow(Some(fs[i])))
  }

  /** The calls `pre`, all accepted, followed by the run `a`. */
  function After(pre: seq<HwCall>, a: Attempt): Attempt
  {
    Attempt(pre + a.log, a.ok)
  }

  /**
   * A step of a staged install: its calls, and what a refusal among them issues: the removal
   * of the refused call when `undoRefused` holds, then `cleanup`.
   */
  datatype Stage = Stage(calls: seq<HwCall>, undoRefused: bool, cleanup: seq<HwCall>)

  function Rollback(st: Stage, k: nat): seq<HwCall>
    requires k < |st.calls|
  {
    (if st.undoRefused then [Undo(st.calls[k])] else []) + st.cleanup
  }

  /**
   * Runs stage `st` from log position `n`: the first refusal issues the stage's rollback and
   * ends the run; with every call accepted the run goes on with `rest`, the run of what follows
   * from the position just after the stage.
   */
  function Step(acc: Oracle, n: nat, st: Stage, rest: Attempt): (r: Attempt)
    ensures FirstRefused(acc, n, st.calls).None? ==> r == After(st.calls, rest)
  {
    match FirstRefused(acc, n, st.calls)
    case Some(k) => Attempt(st.calls[..k + 1] + Rollback(st, k), false)
    case None => After(st.calls, rest)
  }

  /** The removing calls of a log, in order. */
  function Removals(log: seq<HwCall>): (r: seq<HwCall>)
    ensures |r| <= |log|
  {
    if |log| == 0 then []
    else Removals(log[..|log| - 1]) + (if IsRemove(log[|log| - 1]) then [log[|log| - 1]] else [])
  }

  lemma {:induction false} RemovalsAppend(a: seq<HwCall>, b: seq<HwCall>)
    ensures Removals(a + b) == Removals(a) + Removals(b)
    decreases |b|
  {
    if |b| > 0 {
      var b' := b[..|b| - 1];
      assert (a + b)[..|a + b| - 1] == a + b';
      RemovalsAppend(a, b');
    } else {
      assert a + b == a;
    }
  }

  lemma {:induction false} RemovalsNone(cs: seq<HwCall>)
    requires forall i :: 0 <= i < |cs| ==> !IsRemove(cs[i])
    ensures Removals(cs) == []
    decreases |cs|
  {
    if |cs| > 0 {
      RemovalsNone(cs[..|cs| - 1]);
    }
  }

  lemma {:induction false} RemovalsAll(cs: seq<HwCall>)
    requires forall i :: 0 <= i < |cs| ==> IsRemove(cs[i])
    ensures Removals(cs) == cs
    decreases |cs|
  {
    if |cs| > 0 {
      RemovalsAll(cs[..|cs| - 1]);
    }
  }

  lemma TakeRemovesNothing(cs: seq<HwCall>, k: nat)
    requires k <= |cs| && Removals(cs) == []
    ensures Removals(cs[..k]) == []
  {
    assert cs == cs[..k] + cs[k..];
    RemovalsAppend(cs[..k], cs[k..]);
  }

  /** Two runs of calls are accepted as one exactly when each is accepted in turn. */
  lemma AcceptedAppendIff(acc: Oracle, n: nat, a: seq<HwCall>, b: seq<HwCall>, m: nat)
    requires m == n + |a|
    ensures FirstRefused(acc, n, a + b).None? <==> FirstRefused(acc, n, a).None? && FirstRefused(acc, m, b).None?
  {
    FirstRefusedAppend(acc, n, a, b);
  }

  lemma FirstRefusedOne(acc: Oracle, n: nat, c: HwCall)
    ensures FirstRefused(acc, n, [c]) == if Accepts(acc, n, c) then None else Some(0)
  {
    assert [c][1..] == [];
  }

  /** Whether a call removes something. */
  predicate IsRemove(c: HwCall)
  {
    c.RemoveScheds? || c.RemoveQueues? || c.RemoveFlow? || c.RemoveGroup?
  }

  /** Creating the group; a refusal removes it. */
  function GroupStage(g: Group): Stage
  {
    Stage([PerformGroup(g)], true, [])
  }

  /** Creating every member's schedulers; a refusal removes the refused one. */
  function SchedStage(ss: seq<Option<TrafficSchedulers>>): Stage
  {
    Stage(CreateAllScheds(ss), true, [])
  }

  /** Creating every member's queues; a refusal removes the refused one, then every scheduler. */
  function QueueStage(qs: seq<Option<TrafficQueues>>, ss: seq<Option<TrafficSchedulers>>): Stage
  {
    Stage(CreateAllQueues(qs), true, RemoveAllScheds(ss))
  }

  /** Adding every flow; a refusal removes the refused one, then every queue and scheduler. */
  function FlowStage(fs: seq<Flow>, qs: seq<Option<TrafficQueues>>, ss: seq<Option<TrafficSchedulers>>): Stage
  {
    Stage(AddAllFlows(fs), true, RemoveAllQueues(qs) + RemoveAllScheds(ss))
  }

  /** Adding the members to the group; a refusal removes the group. */
  function MemberStage(gm: Group, g: Group): Stage
  {
    Stage([PerformGroup(gm)], false, [RemoveGroup(g)])
  }

  /**
   * `install_MulticastService` once the slot is free: the group, the schedulers, the queues,
   * the flows, then the member group, each stage from where the one before it ends; a
   * successful run ends with the OMCI configuration.
   */
  function McInstall(acc: Oracle, n: nat, g: Group, ss: seq<Option<TrafficSchedulers>>,
                     qs: seq<Option<TrafficQueues>>, fs: seq<Flow>, gm: Group): Attempt
  {
    var m1 := n + 1;
    var m2 := m1 + |ss|;
    var m3 := m2 + |qs|;
    var m4 := m3 + |fs|;
    Step(acc, n, GroupStage(g),
      Step(acc, m1, SchedStage(ss),
        Step(acc, m2, QueueStage(qs, ss),
          Step(acc, m3, FlowStage(fs, qs, ss),
            Step(acc, m4, MemberStage(gm, g), Attempt([OmciConfigureMulticast], true))))))
  }

  /** The calls of a multicast install when every one is accepted. */
  function McPlan(g: Group, ss: seq<Option<TrafficSchedulers>>, qs: seq<Option<TrafficQueues>>,
                  fs: seq<Flow>, gm: Group): seq<HwCall>
  {
    [PerformGroup(g)] + (CreateAllScheds(ss) + (CreateAllQueues(qs) + (AddAllFlows(fs) + [PerformGroup(gm)])))
  }

  /** A refused group is removed again and nothing else is issued. */
  lemma McGroupRefused(acc: Oracle, n: nat, g: Group, ss: seq<Option<TrafficSchedulers>>,
                       qs: seq<Option<TrafficQueues>>, fs: seq<Flow>, gm: Group)
    requires !Accepts(acc, n, PerformGroup(g))
    ensures McInstall(acc, n, g, ss, qs, fs, gm) == Attempt([PerformGroup(g), RemoveGroup(g)], false)
  {
    FirstRefusedOne(acc, n, PerformGroup(g));
  }

  /** A refused scheduler is removed on its own: the group and the schedulers before it stay created. */
  lemma McSchedRefused(acc: Oracle, n: nat, g: Group, ss: seq<Option<TrafficSchedulers>>,
                       qs: seq<Option<TrafficQueues>>, fs: seq<Flow>, gm: Group, k: nat)
    requires Accepts(acc, n, PerformGroup(g))
    requires FirstRefused(acc, n + 1, CreateAllScheds(ss)) == Some(k)
    ensures McInstall(acc, n, g, ss, qs, fs, gm)
         == Attempt([PerformGroup(g)] + (CreateAllScheds(ss)[..k + 1] + [RemoveScheds(ss[k])]), false)
  {
    FirstRefusedOne(acc, n, PerformGroup(g));
  }

  /**
   * Once the schedulers are in, a refused queue removes itself and then every scheduler, but
   * neither the queues created before it nor the group.
   */
  lemma McQueueRefused(acc: Oracle, n: nat, g: Group, ss: seq<Option<TrafficSchedulers>>,
                       qs: seq<Option<TrafficQueues>>, fs: seq<Flow>, gm: Group, k: nat)
    requires Accepts(acc, n, PerformGroup(g))
    requires FirstRefused(acc, n + 1, CreateAllScheds(ss)).None?
    requires FirstRefused(acc, n + 1 + |ss|, CreateAllQueues(qs)) == Some(k)
    ensures McInstall(acc, n, g, ss, qs, fs, gm)
         == Attempt([PerformGroup(g)] + (CreateAllScheds(ss)
                    + (CreateAllQueues(qs)[..k + 1] + ([RemoveQueues(qs[k])] + RemoveAllScheds(ss)))), false)
  {
    FirstRefusedOne(acc, n, PerformGroup(g));
  }

  /**
   * Once schedulers and queues are in, a refused flow removes itself, then every queue, then
   * every scheduler, but not the group.
   */
  lemma McFlowRefused(acc: Oracle, n: nat, g: Group, ss: seq<Option<TrafficSchedulers>>,
                      qs: seq<Option<TrafficQueues>>, fs: seq<Flow>, gm: Group, k: nat)
    requires Accepts(acc, n, PerformGroup(g))
    requires FirstRefused(acc, n + 1, CreateAllScheds(ss)).None?
    requires FirstRefused(acc, n + 1 + |ss|, CreateAllQueues(qs)).None?
    requires FirstRefused(acc, n + 1 + |ss| + |qs|, AddAllFlows(fs)) == Some(k)
    ensures McInstall(acc, n, g, ss, qs, fs, gm)
         == Attempt([PerformGroup(g)] + (CreateAllScheds(ss) + (CreateAllQueues(qs)
                    + (AddAllFlows(fs)[..k + 1] + ([RemoveFlow(Some(fs[k]))] + (RemoveAllQueues(qs) + RemoveAllScheds(ss)))))),
                    false)
  {
    FirstRefusedOne(acc, n, PerformGroup(g));
  }

  /** A refused member update removes the group created first, and nothing else. */
  lemma McMemberRefused(acc: Oracle, n: nat, g: Group, ss: seq<Option<TrafficSchedulers>>,
                        qs: seq<Option<TrafficQueues>>, fs: seq<Flow>, gm: Group)
    requires Accepts(acc, n, PerformGroup(g))
    requires FirstRefused(acc, n + 1, CreateAllScheds(ss)).None?
    requires FirstRefused(acc, n + 1 + |ss|, CreateAllQueues(qs)).None?
    requires FirstRefused(acc, n + 1 + |ss| + |qs|, AddAllFlows(fs)).None?
    requires !Accepts(acc, n + 1 + |ss| + |qs| + |fs|, PerformGroup(gm))
    ensures McInstall(acc, n, g, ss, qs, fs, gm)
         == Attempt([PerformGroup(g)] + (CreateAllScheds(ss) + (CreateAllQueues(qs) + (AddAllFlows(fs)
                    + ([PerformGroup(gm)] + [RemoveGroup(g)])))), false)
  {
    FirstRefusedOne(acc, n, PerformGroup(g));
    FirstRefusedOne(acc, n + 1 + |ss| + |qs| + |fs|, PerformGroup(gm));
    assert MemberStage(gm, g).calls[..1] == [PerformGroup(gm)];
  }

  /** With every call accepted, the install issues the plan and then the OMCI configuration. */
  lemma McAccepted(acc: Oracle, n: nat, g: Group, ss: seq<Option<TrafficSchedulers>>,
                   qs: seq<Option<TrafficQueues>>, fs: seq<Flow>, gm: Group)
    requires Accepts(acc, n, PerformGroup(g))
    requires FirstRefused(acc, n + 1, CreateAllScheds(ss)).None?
    requires FirstRefused(acc, n + 1 + |ss|, CreateAllQueues(qs)).None?
    requires FirstRefused(acc, n + 1 + |ss| + |qs|, AddAllFlows(fs)).None?
    requires Accepts(acc, n + 1 + |ss| + |qs| + |fs|, PerformGroup(gm))
    ensures McInstall(acc, n, g, ss, qs, fs, gm)
         == Attempt([PerformGroup(g)] + (CreateAllScheds(ss) + (CreateAllQueues(qs) + (AddAllFlows(fs)
                    + ([PerformGroup(gm)] + [OmciConfigureMulticast])))), true)
  {
    FirstRefusedOne(acc, n, PerformGroup(g));
    FirstRefusedOne(acc, n + 1 + |ss| + |qs| + |fs|, PerformGroup(gm));
  }

  /** Whether the OLT accepts every call of the install, stage by stage. */
  predicate McAllAccepted(acc: Oracle, n: nat, g: Group, ss: seq<Option<TrafficSchedulers>>,
                          qs: seq<Option<TrafficQueues>>, fs: seq<Flow>, gm: Group)
  {
    && Accepts(acc, n, PerformGroup(g))
    && FirstRefused(acc, n + 1, CreateAllScheds(ss)).None?
    && FirstRefused(acc, n + 1 + |ss|, CreateAllQueues(qs)).None?
    && FirstRefused(acc, n + 1 + |ss| + |qs|, AddAllFlows(fs)).None?
    && Accepts(acc, n + 1 + |ss| + |qs| + |fs|, PerformGroup(gm))
  }

  /** Whether the group, the schedulers and the queues are accepted, so that the flows are generated. */
  predicate McFlowsReached(acc: Oracle, n: nat, g: Group, ss: seq<Option<TrafficSchedulers>>,
                           qs: seq<Option<TrafficQueues>>)
  {
    && Accepts(acc, n, PerformGroup(g))
    && FirstRefused(acc, n + 1, CreateAllScheds(ss)).None?
    && FirstRefused(acc, n + 1 + |ss|, CreateAllQueues(qs)).None?
  }

  /**
   * What a multicast install that stops before the flows issues: the group and its removal,
   * or the schedulers up to the refused one and its removal, or the queues up to the refused
   * one, its removal and then the removal of every scheduler.
   */
  function McResourcesLog(acc: Oracle, n: nat, g: Group, ss: seq<Option<TrafficSchedulers>>,
                          qs: seq<Option<TrafficQueues>>): seq<HwCall>
  {
    var k1, k2 := FirstRefused(acc, n + 1, CreateAllScheds(ss)), FirstRefused(acc, n + 1 + |ss|, CreateAllQueues(qs));
    if !Accepts(acc, n, PerformGroup(g)) then [PerformGroup(g), RemoveGroup(g)]
    else if k1.Some? then [PerformGroup(g)] + (CreateAllScheds(ss)[..k1.value + 1] + [RemoveScheds(ss[k1.value])])
    else if k2.Some? then
      [PerformGroup(g)] + (CreateAllScheds(ss) + (CreateAllQueues(qs)[..k2.value + 1] + ([RemoveQueues(qs[k2.value])] + RemoveAllScheds(ss))))
    else [PerformGroup(g)] + (CreateAllScheds(ss) + CreateAllQueues(qs))
  }

  /**
   * The flows and the member group of a multicast install, from log position `n`: the flows
   * until a refusal, which removes that flow, every queue and every scheduler; then the member
   * group, whose refusal removes the group and whose acceptance is followed by the OMCI
   * configuration.
   */
  function McDeliveryRun(acc: Oracle, n: nat, fs: seq<Flow>, gm: Group, g: Group,
                         ss: seq<Option<TrafficSchedulers>>, qs: seq<Option<TrafficQueues>>): Attempt
  {
    match FirstRefused(acc, n, AddAllFlows(fs))
    case Some(k) =>
      Attempt(AddAllFlows(fs)[..k + 1] + ([RemoveFlow(Some(fs[k]))] + (RemoveAllQueues(qs) + RemoveAllScheds(ss))), false)
    case None =>
      if Accepts(acc, n + |fs|, PerformGroup(gm)) then Attempt(AddAllFlows(fs) + ([PerformGroup(gm)] + [OmciConfigureMulticast]), true)
      else Attempt(AddAllFlows(fs) + ([PerformGroup(gm)] + [RemoveGroup(g)]), false)
  }

  /** A multicast install that stops before the flows fails, issuing `McResourcesLog`. */
  lemma McResourcesRefused(acc: Oracle, n: nat, g: Group, ss: seq<Option<TrafficSchedulers>>,
                           qs: seq<Option<TrafficQueues>>, fs: seq<Flow>, gm: Group)
    requires !McFlowsReached(acc, n, g, ss, qs)
    ensures McInstall(acc, n, g, ss, qs, fs, gm) == Attempt(McResourcesLog(acc, n, g, ss, qs), false)
  {
    var log := McResourcesLog(acc, n, g, ss, qs);
    var k1, k2 := FirstRefused(acc, n + 1, CreateAllScheds(ss)), FirstRefused(acc, n + 1 + |ss|, CreateAllQueues(qs));
    if !Accepts(acc, n, PerformGroup(g)) {
      assert log == [PerformGroup(g), RemoveGroup(g)];
      McGroupRefused(acc, n, g, ss, qs, fs, gm);
    } else if k1.Some? {
      assert log == [PerformGroup(g)] + (CreateAllScheds(ss)[..k1.value + 1] + [RemoveScheds(ss[k1.value])]);
      McSchedRefused(acc, n, g, ss, qs, fs, gm, k1.value);
    } else {
      assert log == [PerformGroup(g)] + (CreateAllScheds(ss)
                      + (CreateAllQueues(qs)[..k2.value + 1] + ([RemoveQueues(qs[k2.value])] + RemoveAllScheds(ss))));
      McQueueRefused(acc, n, g, ss, qs, fs, gm, k2.value);
    }
  }

  /** A multicast install that reaches the flows: the resources' calls, then `McDeliveryRun`. */
  lemma McDeliveryOutcome(acc: Oracle, n: nat, g: Group, ss: seq<Option<TrafficSchedulers>>,
                          qs: seq<Option<TrafficQueues>>, fs: seq<Flow>, gm: Group)
    requires McFlowsReached(acc, n, g, ss, qs)
    ensures McInstall(acc, n, g, ss, qs, fs, gm)
         == After(McResourcesLog(acc, n, g, ss, qs), McDeliveryRun(acc, n + 1 + |ss| + |qs|, fs, gm, g, ss, qs))
  {
    var m := n + 1 + |ss| + |qs|;
    var k := FirstRefused(acc, m, AddAllFlows(fs));
    assert McResourcesLog(acc, n, g, ss, qs) == [PerformGroup(g)] + (CreateAllScheds(ss) + CreateAllQueues(qs));
    if k.Some? {
      McDeliveryFlowRefused(acc, n, g, ss, qs, fs, gm, k.value);
    } else {
      McDeliveryMembers(acc, n, g, ss, qs, fs, gm);
    }
  }

  /** The calls of `install_MulticastService`, split where the flows begin. */
  function McInstallRun(acc: Oracle, n: nat, g: Group, ss: seq<Option<TrafficSchedulers>>,
                        qs: seq<Option<TrafficQueues>>, fs: seq<Flow>, gm: Group): Attempt
  {
    if !McFlowsReached(acc, n, g, ss, qs) then Attempt(McResourcesLog(acc, n, g, ss, qs), false)
    else After(McResourcesLog(acc, n, g, ss, qs), McDeliveryRun(acc, n + 1 + |ss| + |qs|, fs, gm, g, ss, qs))
  }

  /** The split run is the staged install. */
  lemma McInstallRunIsInstall(acc: Oracle, n: nat, g: Group, ss: seq<Option<TrafficSchedulers>>,
                              qs: seq<Option<TrafficQueues>>, fs: seq<Flow>, gm: Group)
    ensures McInstallRun(acc, n, g, ss, qs, fs, gm) == McInstall(acc, n, g, ss, qs, fs, gm)
  {
    if McFlowsReached(acc, n, g, ss, qs) {
      McDeliveryOutcome(acc, n, g, ss, qs, fs, gm);
    } else {
      McResourcesRefused(acc, n, g, ss, qs, fs, gm);
    }
  }

  lemma McDeliveryFlowRefused(acc: Oracle, n: nat, g: Group, ss: seq<Option<TrafficSchedulers>>,
                              qs: seq<Option<TrafficQueues>>, fs: seq<Flow>, gm: Group, k: nat)
    requires McFlowsReached(acc, n, g, ss, qs)
    requires FirstRefused(acc, n + 1 + |ss| + |qs|, AddAllFlows(fs)) == Some(k)
    ensures McInstall(acc, n, g, ss, qs, fs, gm)
         == After([PerformGroup(g)] + (CreateAllScheds(ss) + CreateAllQueues(qs)),
                  McDeliveryRun(acc, n + 1 + |ss| + |qs|, fs, gm, g, ss, qs))
  {
    McDeliveryRunRefused(acc, n, g, ss, qs, fs, gm, k);
    McFlowRefused(acc, n, g, ss, qs, fs, gm, k);
  }

  /** The delivery stage stopped by flow `k`, with the resources' calls in front. */
  lemma McDeliveryRunRefused(acc: Oracle, n: nat, g: Group, ss: seq<Option<TrafficSchedulers>>,
                             qs: seq<Option<TrafficQueues>>, fs: seq<Flow>, gm: Group, k: nat)
    requires FirstRefused(acc, n + 1 + |ss| + |qs|, AddAllFlows(fs)) == Some(k)
    ensures k < |fs|
    ensures After([PerformGroup(g)] + (CreateAllScheds(ss) + CreateAllQueues(qs)),
                  McDeliveryRun(acc, n + 1 + |ss| + |qs|, fs, gm, g, ss, qs))
         == Attempt([PerformGroup(g)] + (CreateAllScheds(ss) + (CreateAllQueues(qs)
                    + (AddAllFlows(fs)[..k + 1] + ([RemoveFlow(Some(fs[k]))] + (RemoveAllQueues(qs) + RemoveAllScheds(ss)))))),
                    false)
  {
    var t := AddAllFlows(fs)[..k + 1] + ([RemoveFlow(Some(fs[k]))] + (RemoveAllQueues(qs) + RemoveAllScheds(ss)));
    Regroup([PerformGroup(g)], CreateAllScheds(ss), CreateAllQueues(qs), t);
  }

  lemma McDeliveryMembers(acc: Oracle, n: nat, g: Group, ss: seq<Option<TrafficSchedulers>>,
                          qs: seq<Option<TrafficQueues>>, fs: seq<Flow>, gm: Group)
    requires McFlowsReached(acc, n, g, ss, qs)
    requires FirstRefused(acc, n + 1 + |ss| + |qs|, AddAllFlows(fs)).None?
    ensures McInstall(acc, n, g, ss, qs, fs, gm)
         == After([PerformGroup(g)] + (CreateAllScheds(ss) + CreateAllQueues(qs)),
                  McDeliveryRun(acc, n + 1 + |ss| + |qs|, fs, gm, g, ss, qs))
  {
    McDeliveryRunMembers(acc, n, g, ss, qs, fs, gm);
    if !Accepts(acc, n + 1 + |ss| + |qs| + |fs|, PerformGroup(gm)) {
      McMemberRefused(acc, n, g, ss, qs, fs, gm);
    } else {
      McAccepted(acc, n, g, ss, qs, fs, gm);
    }
  }

  /** The delivery stage past every flow, with the resources' calls in front. */
  lemma McDeliveryRunMembers(acc: Oracle, n: nat, g: Group, ss: seq<Option<TrafficSchedulers>>,
                             qs: seq<Option<TrafficQueues>>, fs: seq<Flow>, gm: Group)
    requires FirstRefused(acc, n + 1 + |ss| + |qs|, AddAllFlows(fs)).None?
    ensures var ok := Accepts(acc, n + 1 + |ss| + |qs| + |fs|, PerformGroup(gm));
      After([PerformGroup(g)] + (CreateAllScheds(ss) + CreateAllQueues(qs)),
            McDeliveryRun(acc, n + 1 + |ss| + |qs|, fs, gm, g, ss, qs))
      == Attempt([PerformGroup(g)] + (CreateAllScheds(ss) + (CreateAllQueues(qs) + (AddAllFlows(fs)
                 + ([PerformGroup(gm)] + [if ok then OmciConfigureMulticast else RemoveGroup(g)])))), ok)
  {
    var ok := Accepts(acc, n + 1 + |ss| + |qs| + |fs|, PerformGroup(gm));
    var t := AddAllFlows(fs) + ([PerformGroup(gm)] + [if ok then OmciConfigureMulticast else RemoveGroup(g)]);
    Regroup([PerformGroup(g)], CreateAllScheds(ss), CreateAllQueues(qs), t);
  }

  lemma Regroup(a: seq<HwCall>, b: seq<HwCall>, c: seq<HwCall>, t: seq<HwCall>)
    ensures a + (b + (c + t)) == (a + (b + c)) + t
  {
  }

  /** The install succeeds exactly when every stage is accepted. */
  lemma McInstallOk(acc: Oracle, n: nat, g: Group, ss: seq<Option<TrafficSchedulers>>,
                    qs: seq<Option<TrafficQueues>>, fs: seq<Flow>, gm: Group)
    ensures McInstall(acc, n, g, ss, qs, fs, gm).ok <==> McAllAccepted(acc, n, g, ss, qs, fs, gm)
  {
    FirstRefusedOne(acc, n, PerformGroup(g));
    FirstRefusedOne(acc, n + 1 + |ss| + |qs| + |fs|, PerformGroup(gm));
  }

  /** The plan is accepted as one run exactly when every stage is accepted. */
  lemma McPlanAccepted(acc: Oracle, n: nat, g: Group, ss: seq<Option<TrafficSchedulers>>,
                       qs: seq<Option<TrafficQueues>>, fs: seq<Flow>, gm: Group)
    ensures FirstRefused(acc, n, McPlan(g, ss, qs, fs, gm)).None? <==> McAllAccepted(acc, n, g, ss, qs, fs, gm)
  {
    var m1, m2, m3 := n + 1, n + 1 + |ss|, n + 1 + |ss| + |qs|;
    var cs, cq, af, pm := CreateAllScheds(ss), CreateAllQueues(qs), AddAllFlows(fs), [PerformGroup(gm)];
    FirstRefusedOne(acc, n, PerformGroup(g));
    FirstRefusedOne(acc, m3 + |fs|, PerformGroup(gm));
    AcceptedFiveIff(acc, n, [PerformGroup(g)], cs, cq, af, pm, m1, m2, m3, m3 + |fs|);
  }

  /** Five runs of calls are accepted as one exactly when each is accepted from where the one before it ends. */
  lemma AcceptedFiveIff(acc: Oracle, n: nat, a: seq<HwCall>, b: seq<HwCall>, c: seq<HwCall>, d: seq<HwCall>,
                        e: seq<HwCall>, m1: nat, m2: nat, m3: nat, m4: nat)
    requires m1 == n + |a| && m2 == m1 + |b| && m3 == m2 + |c| && m4 == m3 + |d|
    ensures FirstRefused(acc, n, a + (b + (c + (d + e)))).None?
        <==> && FirstRefused(acc, n, a).None? && FirstRefused(acc, m1, b).None?
             && FirstRefused(acc, m2, c).None? && FirstRefused(acc, m3, d).None?
             && FirstRefused(acc, m4, e).None?
  {
    AcceptedAppendIff(acc, m3, d, e, m4);
    AcceptedAppendIff(acc, m2, c, d + e, m3);
    AcceptedAppendIff(acc, m1, b, c + (d + e), m2);
    AcceptedAppendIff(acc, n, a, b + (c + (d + e)), m1);
  }

  lemma McPlanThenConfigure(g: Group, ss: seq<Option<TrafficSchedulers>>, qs: seq<Option<TrafficQueues>>,
                            fs: seq<Flow>, gm: Group)
    ensures McPlan(g, ss, qs, fs, gm) + [OmciConfigureMulticast]
         == [PerformGroup(g)] + (CreateAllScheds(ss) + (CreateAllQueues(qs) + (AddAllFlows(fs)
            + ([PerformGroup(gm)] + [OmciConfigureMulticast]))))
  {
    var cs, cq, af, pm, om := CreateAllScheds(ss), CreateAllQueues(qs), AddAllFlows(fs), [PerformGroup(gm)], [OmciConfigureMulticast];
    AppendAssoc(af, pm, om);
    AppendAssoc(cq, af + pm, om);
    AppendAssoc(cs, cq + (af + pm), om);
    AppendAssoc([PerformGroup(g)], cs + (cq + (af + pm)), om);
  }

  /**
   * A multicast install succeeds exactly when the OLT accepts every call of the plan, and then
   * it issues the plan and the OMCI configuration.
   */
  lemma McInstallSucceeds(acc: Oracle, n: nat, g: Group, ss: seq<Option<TrafficSchedulers>>,
                          qs: seq<Option<TrafficQueues>>, fs: seq<Flow>, gm: Group)
    ensures var a := McInstall(acc, n, g, ss, qs, fs, gm);
      && (a.ok <==> FirstRefused(acc, n, McPlan(g, ss, qs, fs, gm)).None?)
      && (a.ok ==> a.log == McPlan(g, ss, qs, fs, gm) + [OmciConfigureMulticast])
  {
    McInstallOk(acc, n, g, ss, qs, fs, gm);
    McPlanAccepted(acc, n, g, ss, qs, fs, gm);
    if McAllAccepted(acc, n, g, ss, qs, fs, gm) {
      McAccepted(acc, n, g, ss, qs, fs, gm);
      McPlanThenConfigure(g, ss, qs, fs, gm);
    }
  }

  lemma AppendAssoc(a: seq<HwCall>, b: seq<HwCall>, c: seq<HwCall>)
    ensures a + (b + c) == (a + b) + c
  {
  }

  lemma SchedsRemoveNothing(ss: seq<Option<TrafficSchedulers>>)
    ensures Removals(CreateAllScheds(ss)) == []
  {
    RemovalsNone(CreateAllScheds(ss));
  }

  lemma QueuesRemoveNothing(qs: seq<Option<TrafficQueues>>)
    ensures Removals(CreateAllQueues(qs)) == []
  {
    RemovalsNone(CreateAllQueues(qs));
  }

  lemma FlowsRemoveNothing(fs: seq<Flow>)
    ensures Removals(AddAllFlows(fs)) == []
  {
    RemovalsNone(AddAllFlows(fs));
  }

  /** Calls that remove nothing, in front of a log, add no removal. */
  lemma RemovalsFront(a: seq<HwCall>, rest: seq<HwCall>)
    requires Removals(a) == []
    ensures Removals(a + rest) == Removals(rest)
  {
    RemovalsAppend(a, rest);
  }

  lemma GroupRemovesNothing(g: Group)
    ensures Removals([PerformGroup(g)]) == []
  {
    RemovalsNone([PerformGroup(g)]);
  }

  /** The prefix of creating calls up to a refusal, then a rollback of removals: the rollback is all that is removed. */
  lemma RemovalsOfPartial(cs: seq<HwCall>, k: nat, back: seq<HwCall>)
    requires k < |cs| && Removals(cs) == []
    requires forall i :: 0 <= i < |back| ==> IsRemove(back[i])
    ensures Removals(cs[..k + 1] + back) == back
  {
    TakeRemovesNothing(cs, k + 1);
    RemovalsFront(cs[..k + 1], back);
    RemovalsAll(back);
  }

  lemma SchedRefusalLog(g: Group, ss: seq<Option<TrafficSchedulers>>, k: nat)
    requires k < |ss|
    ensures Removals([PerformGroup(g)] + (CreateAllScheds(ss)[..k + 1] + [RemoveScheds(ss[k])])) == [RemoveScheds(ss[k])]
  {
    GroupRemovesNothing(g);
    SchedsRemoveNothing(ss);
    RemovalsOfPartial(CreateAllScheds(ss), k, [RemoveScheds(ss[k])]);
    RemovalsFront([PerformGroup(g)], CreateAllScheds(ss)[..k + 1] + [RemoveScheds(ss[k])]);
  }

  lemma QueueRefusalLog(g: Group, ss: seq<Option<TrafficSchedulers>>, qs: seq<Option<TrafficQueues>>, k: nat)
    requires k < |qs|
    ensures var back := [RemoveQueues(qs[k])] + RemoveAllScheds(ss);
      Removals([PerformGroup(g)] + (CreateAllScheds(ss) + (CreateAllQueues(qs)[..k + 1] + back))) == back
  {
    var back := [RemoveQueues(qs[k])] + RemoveAllScheds(ss);
    var tail := CreateAllQueues(qs)[..k + 1] + back;
    GroupRemovesNothing(g);
    SchedsRemoveNothing(ss);
    QueuesRemoveNothing(qs);
    RemovalsOfPartial(CreateAllQueues(qs), k, back);
    RemovalsFront(CreateAllScheds(ss), tail);
    RemovalsFront([PerformGroup(g)], CreateAllScheds(ss) + tail);
  }

  lemma FlowRefusalLog(g: Group, ss: seq<Option<TrafficSchedulers>>, qs: seq<Option<TrafficQueues>>, fs: seq<Flow>,
                       k: nat)
    requires k < |fs|
    ensures var back := [RemoveFlow(Some(fs[k]))] + (RemoveAllQueues(qs) + RemoveAllScheds(ss));
      Removals([PerformGroup(g)] + (CreateAllScheds(ss) + (CreateAllQueues(qs) + (AddAllFlows(fs)[..k + 1] + back))))
        == back
  {
    var back := [RemoveFlow(Some(fs[k]))] + (RemoveAllQueues(qs) + RemoveAllScheds(ss));
    var t2 := AddAllFlows(fs)[..k + 1] + back;
    var t1 := CreateAllQueues(qs) + t2;
    GroupRemovesNothing(g);
    SchedsRemoveNothing(ss);
    QueuesRemoveNothing(qs);
    FlowsRemoveNothing(fs);
    RemovalsOfPartial(AddAllFlows(fs), k, back);
    RemovalsFront(CreateAllQueues(qs), t2);
    RemovalsFront(CreateAllScheds(ss), t1);
    RemovalsFront([PerformGroup(g)], CreateAllScheds(ss) + t1);
  }

  /** The creating calls of the install, then a tail: the removals are the tail's. */
  lemma CreatesThen(g: Group, ss: seq<Option<TrafficSchedulers>>, qs: seq<Option<TrafficQueues>>, fs: seq<Flow>,
                    tail: seq<HwCall>)
    ensures Removals([PerformGroup(g)] + (CreateAllScheds(ss) + (CreateAllQueues(qs) + (AddAllFlows(fs) + tail))))
         == Removals(tail)
  {
    var t2 := AddAllFlows(fs) + tail;
    var t1 := CreateAllQueues(qs) + t2;
    GroupRemovesNothing(g);
    SchedsRemoveNothing(ss);
    QueuesRemoveNothing(qs);
    FlowsRemoveNothing(fs);
    RemovalsFront(AddAllFlows(fs), tail);
    RemovalsFront(CreateAllQueues(qs), t2);
    RemovalsFront(CreateAllScheds(ss), t1);
    RemovalsFront([PerformGroup(g)], CreateAllScheds(ss) + t1);
  }

  /** A refused scheduler: the only removal is of that scheduler; the group and the schedulers before it stay. */
  lemma McSchedulerRefusalKeepsEarlier(acc: Oracle, n: nat, g: Group, ss: seq<Option<TrafficSchedulers>>,
                                       qs: seq<Option<TrafficQueues>>, fs: seq<Flow>, gm: Group, k: nat)
    requires Accepts(acc, n, PerformGroup(g))
    requires FirstRefused(acc, n + 1, CreateAllScheds(ss)) == Some(k)
    ensures var a := McInstall(acc, n, g, ss, qs, fs, gm);
      !a.ok && Removals(a.log) == [RemoveScheds(ss[k])]
  {
    McSchedRefused(acc, n, g, ss, qs, fs, gm, k);
    SchedRefusalLog(g, ss, k);
  }

  /** A refused queue: the removals are of that queue, then of every scheduler; earlier queues and the group stay. */
  lemma McQueueRefusalRemovesSchedulers(acc: Oracle, n: nat, g: Group, ss: seq<Option<TrafficSchedulers>>,
                                        qs: seq<Option<TrafficQueues>>, fs: seq<Flow>, gm: Group, k: nat)
    requires Accepts(acc, n, PerformGroup(g))
    requires FirstRefused(acc, n + 1, CreateAllScheds(ss)).None?
    requires FirstRefused(acc, n + 1 + |ss|, CreateAllQueues(qs)) == Some(k)
    ensures var a := McInstall(acc, n, g, ss, qs, fs, gm);
      !a.ok && Removals(a.log) == [RemoveQueues(qs[k])] + RemoveAllScheds(ss)
  {
    McQueueRefused(acc, n, g, ss, qs, fs, gm, k);
    QueueRefusalLog(g, ss, qs, k);
  }

  /** A refused flow: the removals are of that flow, every queue, then every scheduler; the group stays. */
  lemma McFlowRefusalRemovesResources(acc: Oracle, n: nat, g: Group, ss: seq<Option<TrafficSchedulers>>,
                                      qs: seq<Option<TrafficQueues>>, fs: seq<Flow>, gm: Group, k: nat)
    requires Accepts(acc, n, PerformGroup(g))
    requires FirstRefused(acc, n + 1, CreateAllScheds(ss)).None?
    requires FirstRefused(acc, n + 1 + |ss|, CreateAllQueues(qs)).None?
    requires FirstRefused(acc, n + 1 + |ss| + |qs|, AddAllFlows(fs)) == Some(k)
    ensures var a := McInstall(acc, n, g, ss, qs, fs, gm);
      !a.ok && Removals(a.log) == [RemoveFlow(Some(fs[k]))] + (RemoveAllQueues(qs) + RemoveAllScheds(ss))
  {
    McFlowRefused(acc, n, g, ss, qs, fs, gm, k);
    FlowRefusalLog(g, ss, qs, fs, k);
  }

  /** A refused member update: the only removal is of the group created first. */
  lemma McMemberRefusalRemovesGroup(acc: Oracle, n: nat, g: Group, ss: seq<Option<TrafficSchedulers>>,
                                    qs: seq<Option<TrafficQueues>>, fs: seq<Flow>, gm: Group)
    requires Accepts(acc, n, PerformGroup(g))
    requires FirstRefused(acc, n + 1, CreateAllScheds(ss)).None?
    requires FirstRefused(acc, n + 1 + |ss|, CreateAllQueues(qs)).None?
    requires FirstRefused(acc, n + 1 + |ss| + |qs|, AddAllFlows(fs)).None?
    requires !Accepts(acc, n + 1 + |ss| + |qs| + |fs|, PerformGroup(gm))
    ensures var a := McInstall(acc, n, g, ss, qs, fs, gm);
      !a.ok && Removals(a.log) == [RemoveGroup(g)]
  {
    McMemberRefused(acc, n, g, ss, qs, fs, gm);
    CreatesThen(g, ss, qs, fs, [PerformGroup(gm)] + [RemoveGroup(g)]);
    GroupRemovesNothing(gm);
    RemovalsFront([PerformGroup(gm)], [RemoveGroup(g)]);
    RemovalsAll([RemoveGroup(g)]);
  }

  /** A successful install removes nothing. */
  lemma McAcceptedRemovesNothing(acc: Oracle, n: nat, g: Group, ss: seq<Option<TrafficSchedulers>>,
                                 qs: seq<Option<TrafficQueues>>, fs: seq<Flow>, gm: Group)
    requires McAllAccepted(acc, n, g, ss, qs, fs, gm)
    ensures var a := McInstall(acc, n, g, ss, qs, fs, gm);
      a.ok && Removals(a.log) == []
  {
    McAccepted(acc, n, g, ss, qs, fs, gm);
    CreatesThen(g, ss, qs, fs, [PerformGroup(gm)] + [OmciConfigureMulticast]);
    RemovalsNone([PerformGroup(gm)] + [OmciConfigureMulticast]);
  }

  /** A refusal in the first three stages fails the install, and it removes something. */
  lemma McEarlyRefusalRemoves(acc: Oracle, n: nat, g: Group, ss: seq<Option<TrafficSchedulers>>,
                              qs: seq<Option<TrafficQueues>>, fs: seq<Flow>, gm: Group)
    requires || !Accepts(acc, n, PerformGroup(g))
             || FirstRefused(acc, n + 1, CreateAllScheds(ss)).Some?
             || FirstRefused(acc, n + 1 + |ss|, CreateAllQueues(qs)).Some?
    ensures var a := McInstall(acc, n, g, ss, qs, fs, gm);
      !a.ok && Removals(a.log) != []
  {
    var r1, r2 := FirstRefused(acc, n + 1, CreateAllScheds(ss)), FirstRefused(acc, n + 1 + |ss|, CreateAllQueues(qs));
    if !Accepts(acc, n, PerformGroup(g)) {
      McGroupRefused(acc, n, g, ss, qs, fs, gm);
      RemovalsAll([RemoveGroup(g)]);
      RemovalsFront([PerformGroup(g)], [RemoveGroup(g)]);
      GroupRemovesNothing(g);
    } else if r1.Some? {
      McSchedulerRefusalKeepsEarlier(acc, n, g, ss, qs, fs, gm, r1.value);
    } else {
      McQueueRefusalRemovesSchedulers(acc, n, g, ss, qs, fs, gm, r2.value);
    }
  }

  /** Past the first three stages, the install removes something exactly when it fails. */
  lemma McLateOutcome(acc: Oracle, n: nat, g: Group, ss: seq<Option<TrafficSchedulers>>,
                      qs: seq<Option<TrafficQueues>>, fs: seq<Flow>, gm: Group)
    requires Accepts(acc, n, PerformGroup(g))
    requires FirstRefused(acc, n + 1, CreateAllScheds(ss)).None?
    requires FirstRefused(acc, n + 1 + |ss|, CreateAllQueues(qs)).None?
    ensures var a := McInstall(acc, n, g, ss, qs, fs, gm);
      a.ok <==> Removals(a.log) == []
  {
    var r3 := FirstRefused(acc, n + 1 + |ss| + |qs|, AddAllFlows(fs));
    if r3.Some? {
      McFlowRefusalRemovesResources(acc, n, g, ss, qs, fs, gm, r3.value);
    } else if !Accepts(acc, n + 1 + |ss| + |qs| + |fs|, PerformGroup(gm)) {
      McMemberRefusalRemovesGroup(acc, n, g, ss, qs, fs, gm);
    } else {
      McAcceptedRemovesNothing(acc, n, g, ss, qs, fs, gm);
    }
  }

  /** A multicast install removes something exactly when it fails. */
  lemma McInstallRemovesOnlyOnFailure(acc: Oracle, n: nat, g: Group, ss: seq<Option<TrafficSchedulers>>,
                                      qs: seq<Option<TrafficQueues>>, fs: seq<Flow>, gm: Group)
    ensures var a := McInstall(acc, n, g, ss, qs, fs, gm);
      a.ok <==> Removals(a.log) == []
  {
    if || !Accepts(acc, n, PerformGroup(g))
       || FirstRefused(acc, n + 1, CreateAllScheds(ss)).Some?
       || FirstRefused(acc, n + 1 + |ss|, CreateAllQueues(qs)).Some? {
      McEarlyRefusalRemoves(acc, n, g, ss, qs, fs, gm);
    } else {
      McLateOutcome(acc, n, g, ss, qs, fs, gm);
    }
  }

  /**
   * `uninstall_MulticastService` once the slot is set: the flows, the member group, the queues,
   * then the schedulers, stopping at the first refusal.
   */
  function McRemovePlan(fs: seq<Flow>, gm: Group, qs: seq<Option<TrafficQueues>>,
                        ss: seq<Option<TrafficSchedulers>>): seq<HwCall>
  {
    RemoveAllFlows(fs) + [RemoveGroup(gm)] + RemoveAllQueues(qs) + RemoveAllScheds(ss)
  }

  /** A teardown of `a + b`: a refusal in `a` ends it there; otherwise the teardown of `b` follows. */
  lemma TeardownAppend(acc: Oracle, n: nat, a: seq<HwCall>, b: seq<HwCall>)
    ensures Teardown(acc, n, a + b) ==
      match FirstRefused(acc, n, a)
      case Some(k) => Attempt(a[..k + 1], false)
      case None => After(a, Teardown(acc, n + |a|, b))
  {
    FirstRefusedAppend(acc, n, a, b);
    match FirstRefused(acc, n, a)
    case Some(k) =>
      assert (a + b)[..k + 1] == a[..k + 1];
    case None =>
      match FirstRefused(acc, n + |a|, b)
      case Some(k) =>
        assert (a + b)[..|a| + k + 1] == a + b[..k + 1];
      case None =>
  }

  /** The multicast teardown plan, grouped from the right as the uninstall runs it. */
  lemma McRemovePlanRight(fs: seq<Flow>, gm: Group, qs: seq<Option<TrafficQueues>>, ss: seq<Option<TrafficSchedulers>>)
    ensures McRemovePlan(fs, gm, qs, ss) == RemoveAllFlows(fs) + ([RemoveGroup(gm)] + (RemoveAllQueues(qs) + RemoveAllScheds(ss)))
  {
  }

  /**
   * The multicast teardown, stage by stage: the flows up to a refused one; the member group;
   * the queues up to a refused one; the schedulers up to a refused one.
   */
  lemma McTeardownCases(acc: Oracle, n: nat, fs: seq<Flow>, gm: Group, qs: seq<Option<TrafficQueues>>,
                        ss: seq<Option<TrafficSchedulers>>)
    ensures var f, q, s := RemoveAllFlows(fs), RemoveAllQueues(qs), RemoveAllScheds(ss);
            var k1 := FirstRefused(acc, n, f);
      Teardown(acc, n, McRemovePlan(fs, gm, qs, ss)) ==
        if k1.Some? then Attempt(f[..k1.value + 1], false)
        else if !Accepts(acc, n + |f|, RemoveGroup(gm)) then Attempt(f + [RemoveGroup(gm)], false)
        else After(f + [RemoveGroup(gm)], Teardown(acc, n + |f| + 1, q + s))
  {
    var f, q, s := RemoveAllFlows(fs), RemoveAllQueues(qs), RemoveAllScheds(ss);
    var g := [RemoveGroup(gm)];
    McRemovePlanRight(fs, gm, qs, ss);
    TeardownAppend(acc, n, f, g + (q + s));
    McTeardownAfterFlows(acc, n, f, gm, q + s);
  }

  lemma McTeardownAfterFlows(acc: Oracle, n: nat, f: seq<HwCall>, gm: Group, rest: seq<HwCall>)
    ensures After(f, Teardown(acc, n + |f|, [RemoveGroup(gm)] + rest)) ==
      if !Accepts(acc, n + |f|, RemoveGroup(gm)) then Attempt(f + [RemoveGroup(gm)], false)
      else After(f + [RemoveGroup(gm)], Teardown(acc, n + |f| + 1, rest))
  {
    var g := [RemoveGroup(gm)];
    TeardownAppend(acc, n + |f|, g, rest);
    FirstRefusedOne(acc, n + |f|, RemoveGroup(gm));
    if Accepts(acc, n + |f|, RemoveGroup(gm)) {
      AfterAfter(f, g, Teardown(acc, n + |f| + 1, rest));
    } else {
      assert g[..1] == g;
    }
  }

  lemma AfterAfter(a: seq<HwCall>, b: seq<HwCall>, t: Attempt)
    ensures After(a, After(b, t)) == After(a + b, t)
  {
  }

  lemma McTeardownTail(acc: Oracle, n: nat, q: seq<HwCall>, s: seq<HwCall>)
    ensures Teardown(acc, n, q + s) == McRemoveTail(acc, n, q, s)
  {
    TeardownAppend(acc, n, q, s);
  }

  /** The calls of the queue and scheduler removals of `uninstall_MulticastService`, one branch per refusal point. */
  function McRemoveTail(acc: Oracle, n: nat, q: seq<HwCall>, s: seq<HwCall>): Attempt
  {
    var k2, k3 := FirstRefused(acc, n, q), FirstRefused(acc, n + |q|, s);
    if k2.Some? then Attempt(q[..k2.value + 1], false)
    else if k3.Some? then Attempt(q + s[..k3.value + 1], false)
    else Attempt(q + s, true)
  }

  /**
   * The calls of `uninstall_MulticastService` once the slot is set, one branch per refusal point:
   * the flow removals `f`, the member group `gm`, then the queue and scheduler removals.
   */
  function McRemoveRun(acc: Oracle, n: nat, f: seq<HwCall>, gm: Group, q: seq<HwCall>, s: seq<HwCall>): Attempt
  {
    var k1 := FirstRefused(acc, n, f);
    if k1.Some? then Attempt(f[..k1.value + 1], false)
    else if !Accepts(acc, n + |f|, RemoveGroup(gm)) then Attempt(f + [RemoveGroup(gm)], false)
    else After(f + [RemoveGroup(gm)], McRemoveTail(acc, n + |f| + 1, q, s))
  }

  /** A removal that gets past the flows and the member group continues with `McRemoveTail`. */
  lemma McRemoveRunPast(acc: Oracle, n: nat, f: seq<HwCall>, gm: Group, q: seq<HwCall>, s: seq<HwCall>)
    requires FirstRefused(acc, n, f).None? && Accepts(acc, n + |f|, RemoveGroup(gm))
    ensures McRemoveRun(acc, n, f, gm, q, s) == After(f + [RemoveGroup(gm)], McRemoveTail(acc, n + |f| + 1, q, s))
  {
  }

  /** The branches above are the teardown of the removal plan. */
  lemma McRemoveRunIsTeardown(acc: Oracle, n: nat, fs: seq<Flow>, gm: Group, qs: seq<Option<TrafficQueues>>,
                              ss: seq<Option<TrafficSchedulers>>)
    ensures McRemoveRun(acc, n, RemoveAllFlows(fs), gm, RemoveAllQueues(qs), RemoveAllScheds(ss))
         == Teardown(acc, n, McRemovePlan(fs, gm, qs, ss))
  {
    McTeardownCases(acc, n, fs, gm, qs, ss);
    McTeardownTail(acc, n + |fs| + 1, RemoveAllQueues(qs), RemoveAllScheds(ss));
  }

  /** The teardown removes only, and on success removes every flow, queue and scheduler. */
  lemma McRemoveComplete(acc: Oracle, n: nat, fs: seq<Flow>, gm: Group, qs: seq<Option<TrafficQueues>>,
                         ss: seq<Option<TrafficSchedulers>>)
    ensures var a := Teardown(acc, n, McRemovePlan(fs, gm, qs, ss));
      && (forall c :: c in a.log ==> IsRemove(c))
      && (a.ok ==>
            && RemoveGroup(gm) in a.log
            && (forall i :: 0 <= i < |fs| ==> RemoveFlow(Some(fs[i])) in a.log)
            && (forall i :: 0 <= i < |qs| ==> RemoveQueues(qs[i]) in a.log)
            && (forall i :: 0 <= i < |ss| ==> RemoveScheds(ss[i]) in a.log))
  {
    var p := McRemovePlan(fs, gm, qs, ss);
    var a := Teardown(acc, n, p);
    TeardownStops(acc, n, p);
    var rf, rq, rs := RemoveAllFlows(fs), RemoveAllQueues(qs), RemoveAllScheds(ss);
    assert forall c :: c in p ==> IsRemove(c);
    assert forall c :: c in a.log ==> c in p by {
      forall c | c in a.log
        ensures c in p
      {
        var i :| 0 <= i < |a.log| && a.log[i] == c;
        assert p[i] == c;
      }
    }
    if a.ok {
      forall i | 0 <= i < |fs|
        ensures RemoveFlow(Some(fs[i])) in a.log
      {
        assert rf[i] in rf;
      }
      forall i | 0 <= i < |qs|
        ensures RemoveQueues(qs[i]) in a.log
      {
        assert rq[i] in rq;
      }
      forall i | 0 <= i < |ss|
        ensures RemoveScheds(ss[i]) in a.log
      {
        assert rs[i] in rs;
      }
    }
  }
}
