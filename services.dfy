/**
 * The service objects of the OLT: a unicast (Internet or VoIP) service holds the traffic
 * schedulers and queues of both directions, their classifiers and actions, the priorities of the
 * flows that created it and the ids of the flows installed for it; a multicast service holds one
 * member per PON interface and the multicast group sent to the hardware.
 *
 * Protobuf messages are values here. A field the source leaves as `None` takes the proto3
 * default 0 (`OrZero`).
 */
module Services {
  import opened Wrappers

  /** `tech_profile_pb2.Direction`: UPSTREAM = 0, DOWNSTREAM = 1, BIDIRECTIONAL = 2. */
  datatype Direction = Upstream | Downstream | Bidirectional

  /** `GenericService.nni_if`. */
  const NNI_IF: nat := 0

  /** `tech_profile_pb2.AdditionalBW`: the default `additionalBW = 2` of `add_traffic_sched`. */
  const ADDITIONAL_BW_AUTO: nat := 2
  const ADDITIONAL_BW_BEST_EFFORT: nat := 1

  function OrZero(o: Option<nat>): nat
  {
    o.GetOr(0)
  }

  datatype Sched = Sched(
    direction: Direction,
    allocId: nat,
    additionalBw: nat,
    priority: nat,
    weight: nat,
    cir: nat,
    pir: nat,
    pbs: nat,
    techProfileId: nat)

  datatype Queue = Queue(direction: Direction, gemportId: nat, priority: nat, weight: nat)

  /** `TrafficSchedulers` and `TrafficQueues`: the header the service was created with and the list. */
  datatype TrafficSchedulers = TrafficSchedulers(intfId: nat, onuId: nat, uniId: nat, portNo: nat, scheds: seq<Sched>)
  datatype TrafficQueues = TrafficQueues(
    intfId: nat, onuId: nat, uniId: nat, portNo: nat, techProfileId: nat, queues: seq<Queue>)

  /** The classifier fields the services set; the others stay at their defaults. */
  datatype Classifier = Classifier(oVid: nat, iVid: nat, tagType: string)

  datatype Cmd = Cmd(
    addOuter: bool,
    removeOuter: bool,
    addInner: bool,
    removeInner: bool,
    translateOuter: bool,
    translateInner: bool)

  datatype Action = Action(oVid: nat, oPbits: nat, iVid: nat, iPbits: nat, cmd: Cmd)

  const NoCmd := Cmd(false, false, false, false, false, false)
  const DefaultClassifier := Classifier(0, 0, "")
  const DefaultAction := Action(0, 0, 0, 0, NoCmd)

  datatype Flow = Flow(
    accessIntfId: nat,
    onuId: nat,
    uniId: nat,
    flowId: nat,
    symmetricFlowId: nat,
    flowType: string,
    networkIntfId: nat,
    gemportId: nat,
    classifier: Classifier,
    action: Action,
    priority: nat,
    cookie: nat,
    portNo: nat,
    groupId: nat,
    techProfileId: nat)

  function SchedDir(s: Sched): Direction { s.direction }
  function QueueDir(q: Queue): Direction { q.direction }

  /** `generate_*_action`: the action fields, with one command flag per name present in `cmds`. */
  function ActionOf(oVid: Option<nat>, oPbits: Option<nat>, iVid: Option<nat>, iPbits: Option<nat>, cmds: seq<string>): Action
  {
    Action(OrZero(oVid), OrZero(oPbits), OrZero(iVid), OrZero(iPbits),
           Cmd("add_outer_tag" in cmds, "remove_outer_tag" in cmds, "add_inner_tag" in cmds,
               "remove_inner_tag" in cmds, "translate_outer_tag" in cmds, "translate_inner_tag" in cmds))
  }

  // ---------------------------------------------------------------- entries of one direction

  /** The entries of direction `d`, in order (`get_downstream_*` / `get_upstream_*`). */
  function Select<T>(l: seq<T>, dir: T -> Direction, d: Direction): (r: seq<T>)
    ensures |r| <= |l|
  {
    if |l| == 0 then []
    else (if dir(l[0]) == d then [l[0]] else []) + Select(l[1..], dir, d)
  }

  /** The selection holds exactly the entries of direction `d`. */
  lemma {:induction false} SelectMembers<T>(l: seq<T>, dir: T -> Direction, d: Direction)
    ensures forall x :: x in Select(l, dir, d) <==> x in l && dir(x) == d
  {
    if |l| > 0 {
      SelectMembers(l[1..], dir, d);
      assert l == [l[0]] + l[1..];
    }
  }

  /** The selection from position `k` on: the entry at `k` if it has direction `d`, then the rest. */
  lemma SelectFrom<T>(l: seq<T>, k: nat, dir: T -> Direction, d: Direction)
    requires k < |l|
    ensures Select(l[k..], dir, d) == (if dir(l[k]) == d then [l[k]] else []) + Select(l[k + 1..], dir, d)
  {
    assert l[k..][1..] == l[k + 1..];
  }

  lemma Assoc<T>(a: seq<T>, b: seq<T>, c: seq<T>)
    ensures a + (b + c) == (a + b) + c
  {
  }

  /** The getters' loop: append every entry of direction `d`. */
  method SelectLoop<T>(l: seq<T>, dir: T -> Direction, d: Direction) returns (r: seq<T>)
    ensures r == Select(l, dir, d)
  {
    r := [];
    var k := 0;
    assert l[0..] == l;
    while k < |l|
      invariant 0 <= k <= |l|
      invariant r + Select(l[k..], dir, d) == Select(l, dir, d)
    {
      var h := if dir(l[k]) == d then [l[k]] else [];
      SelectFrom(l, k, dir, d);
      Assoc(r, h, Select(l[k + 1..], dir, d));
      r := r + h;
      k := k + 1;
    }
    assert r + [] == r;
  }

  /** The three selections of `l` together are `l`, counted with repetitions. */
  ghost predicate Partitioned<T>(l: seq<T>, dir: T -> Direction)
  {
    multiset(l) == multiset(Select(l, dir, Upstream)) + multiset(Select(l, dir, Downstream))
                   + multiset(Select(l, dir, Bidirectional))
  }

  /** Every entry has exactly one direction: the three selections together are the list. */
  lemma {:induction false} SelectPartition<T>(l: seq<T>, dir: T -> Direction)
    ensures Partitioned(l, dir)
  {
    if |l| > 0 {
      SelectPartition(l[1..], dir);
      PartitionCons(l, dir);
    }
  }

  /** The first entry joins the selection of its own direction and no other. */
  lemma PartitionCons<T>(l: seq<T>, dir: T -> Direction)
    requires |l| > 0 && Partitioned(l[1..], dir)
    ensures Partitioned(l, dir)
  {
    var x, rest := l[0], l[1..];
    var mu, mw, mb := multiset(Select(rest, dir, Upstream)), multiset(Select(rest, dir, Downstream)),
                      multiset(Select(rest, dir, Bidirectional));
    assert multiset(l) == multiset{x} + multiset(rest) by {
      assert l == [x] + rest;
    }
    AddOne(multiset{x}, mu, mw, mb);
    SelectHead(l, dir, Upstream);
    SelectHead(l, dir, Downstream);
    SelectHead(l, dir, Bidirectional);
  }

  lemma SelectHead<T>(l: seq<T>, dir: T -> Direction, d: Direction)
    requires |l| > 0
    ensures multiset(Select(l, dir, d)) ==
      if dir(l[0]) == d then multiset{l[0]} + multiset(Select(l[1..], dir, d)) else multiset(Select(l[1..], dir, d))
  {
  }

  lemma AddOne<T>(x: multiset<T>, a: multiset<T>, b: multiset<T>, c: multiset<T>)
    ensures x + (a + b + c) == (x + a) + b + c
    ensures x + (a + b + c) == a + (x + b) + c
    ensures x + (a + b + c) == a + b + (x + c)
  {
  }

  /** Whether `remove_traffic_*(d)` is meant to drop an entry of direction `e`. */
  predicate Matches(d: Direction, e: Direction)
  {
    d == Bidirectional || e == d
  }

  /** What `remove_traffic_schedulers(d)` / `remove_traffic_queues(d)` are meant to do. */
  function Remove<T>(l: seq<T>, dir: T -> Direction, d: Direction): (r: seq<T>)
    ensures |r| <= |l|
  {
    if |l| == 0 then []
    else (if Matches(d, dir(l[0])) then [] else [l[0]]) + Remove(l[1..], dir, d)
  }

  /**
   * After removing direction `d` nothing of that direction is left, and the entries of every
   * other direction are still there in their order; removing BIDIRECTIONAL empties the list.
   */
  lemma {:induction false} RemoveSelect<T>(l: seq<T>, dir: T -> Direction, d: Direction, e: Direction)
    ensures Select(Remove(l, dir, d), dir, e) == if Matches(d, e) then [] else Select(l, dir, e)
  {
    if |l| > 0 {
      var x, rest := l[0], l[1..];
      RemoveSelect(rest, dir, d, e);
      var kept := Remove(rest, dir, d);
      var head := if dir(x) == e then [x] else [];
      assert Select(l, dir, e) == head + Select(rest, dir, e);
      if Matches(d, dir(x)) {
        assert Remove(l, dir, d) == kept;
      } else {
        assert Remove(l, dir, d) == [x] + kept;
        assert ([x] + kept)[1..] == kept;
        assert Select([x] + kept, dir, e) == head + Select(kept, dir, e);
      }
    }
  }

  /** The removal keeps exactly the entries it is not meant to drop. */
  lemma {:induction false} RemoveMembers<T>(l: seq<T>, dir: T -> Direction, d: Direction)
    ensures forall x :: x in Remove(l, dir, d) <==> x in l && !Matches(d, dir(x))
  {
    if |l| > 0 {
      RemoveMembers(l[1..], dir, d);
      assert l == [l[0]] + l[1..];
    }
  }

  lemma RemoveBidirectional<T>(l: seq<T>, dir: T -> Direction)
    ensures Remove(l, dir, Bidirectional) == []
  {
  }

  /** `list.remove(x)`: drop the first entry equal to `x`. */
  function RemoveFirst<T(==)>(l: seq<T>, x: T): (r: seq<T>)
    ensures x in l ==> |r| == |l| - 1
    ensures x !in l ==> r == l
  {
    if |l| == 0 then []
    else if l[0] == x then l[1..]
    else [l[0]] + RemoveFirst(l[1..], x)
  }

  /**
   * The loop as written: it iterates over the live list by position and removes each matching
   * entry found, so the entry that slides into the freed position is never looked at.
   */
  function SweepAsWritten<T(==)>(l: seq<T>, dir: T -> Direction, d: Direction, i: nat): seq<T>
    decreases |l| - i
  {
    if i >= |l| then l
    else if Matches(d, dir(l[i])) then SweepAsWritten(RemoveFirst(l, l[i]), dir, d, i + 1)
    else SweepAsWritten(l, dir, d, i + 1)
  }

  /**
   * Two downstream schedulers: the loop removes the first and then stops, leaving the second,
   * where the intended removal leaves none. A multicast member holds two after its service has
   * been generated twice.
   */
  lemma SweepSkipsSecond()
    ensures var a := Sched(Downstream, 0, 2, 0, 0, 1000, 2000, 100, 7);
            var b := Sched(Downstream, 0, 2, 0, 0, 3000, 4000, 100, 7);
            && SweepAsWritten([a, b], SchedDir, Downstream, 0) == [b]
            && Remove([a, b], SchedDir, Downstream) == []
  {
    var a := Sched(Downstream, 0, 2, 0, 0, 1000, 2000, 100, 7);
    var b := Sched(Downstream, 0, 2, 0, 0, 3000, 4000, 100, 7);
    assert RemoveFirst([a, b], a) == [b];
    assert [a, b][..1] == [a];
  }

  /** The BIDIRECTIONAL default on a downstream and an upstream queue leaves the upstream one. */
  lemma SweepBidirectionalKeepsUpstream()
    ensures var dw := Queue(Downstream, 1024, 0, 0);
            var up := Queue(Upstream, 1024, 0, 0);
            && SweepAsWritten([dw, up], QueueDir, Bidirectional, 0) == [up]
            && Remove([dw, up], QueueDir, Bidirectional) == []
  {
    var dw := Queue(Downstream, 1024, 0, 0);
    var up := Queue(Upstream, 1024, 0, 0);
    assert RemoveFirst([dw, up], dw) == [up];
  }

  /** At most one entry of the list is meant to be dropped by `remove_traffic_*(d)`. */
  predicate AtMostOneMatch<T>(l: seq<T>, dir: T -> Direction, d: Direction)
  {
    forall j, k :: 0 <= j < k < |l| && Matches(d, dir(l[j])) ==> !Matches(d, dir(l[k]))
  }

  /** A list with nothing to drop is its own removal. */
  lemma {:induction false} RemoveNone<T>(l: seq<T>, dir: T -> Direction, d: Direction)
    requires forall j :: 0 <= j < |l| ==> !Matches(d, dir(l[j]))
    ensures Remove(l, dir, d) == l
  {
    if |l| > 0 {
      RemoveNone(l[1..], dir, d);
      assert l == [l[0]] + l[1..];
    }
  }

  /** The removal of a list with a head: the head's fate, then the removal of the rest. */
  lemma RemoveCons<T>(x: T, l: seq<T>, dir: T -> Direction, d: Direction)
    ensures Remove([x] + l, dir, d) == (if Matches(d, dir(x)) then [] else [x]) + Remove(l, dir, d)
  {
    assert ([x] + l)[0] == x;
    assert ([x] + l)[1..] == l;
  }

  /** The removal works entry by entry, so it distributes over concatenation. */
  lemma {:induction false} RemoveAppend<T>(a: seq<T>, b: seq<T>, dir: T -> Direction, d: Direction)
    ensures Remove(a + b, dir, d) == Remove(a, dir, d) + Remove(b, dir, d)
  {
    if |a| == 0 {
      assert a + b == b;
    } else {
      var x, rest := a[0], a[1..];
      assert a == [x] + rest;
      assert a + b == [x] + (rest + b);
      RemoveCons(x, rest + b, dir, d);
      RemoveCons(x, rest, dir, d);
      RemoveAppend(rest, b, dir, d);
    }
  }

  /** `list.remove(l[k])` drops position `k` when no earlier entry equals it. */
  lemma {:induction false} RemoveFirstAt<T>(l: seq<T>, k: nat)
    requires k < |l| && forall j :: 0 <= j < k ==> l[j] != l[k]
    ensures RemoveFirst(l, l[k]) == l[..k] + l[k + 1..]
  {
    if k > 0 {
      RemoveFirstAt(l[1..], k - 1);
      assert l[1..][k - 1] == l[k];
      assert l[1..][..k - 1] == l[1..k];
      assert l[1..][k..] == l[k + 1..];
      assert [l[0]] + l[1..k] == l[..k];
    }
  }

  /** With nothing left to drop from position `i` on, the loop as written changes nothing. */
  lemma {:induction false} SweepNone<T>(l: seq<T>, dir: T -> Direction, d: Direction, i: nat)
    requires forall j :: i <= j < |l| ==> !Matches(d, dir(l[j]))
    ensures SweepAsWritten(l, dir, d, i) == l
    decreases |l| - i
  {
    if i < |l| {
      SweepNone(l, dir, d, i + 1);
    }
  }

  /** Removing from a list whose only entry meant to go is `x`: the entries around it, in order. */
  lemma RemoveDropsOne<T>(before: seq<T>, x: T, after: seq<T>, dir: T -> Direction, d: Direction)
    requires Matches(d, dir(x))
    requires forall j :: 0 <= j < |before| ==> !Matches(d, dir(before[j]))
    requires forall j :: 0 <= j < |after| ==> !Matches(d, dir(after[j]))
    ensures Remove(before + ([x] + after), dir, d) == before + after
  {
    RemoveAppend(before, [x] + after, dir, d);
    RemoveCons(x, after, dir, d);
    RemoveNone(before, dir, d);
    RemoveNone(after, dir, d);
    assert Remove([x] + after, dir, d) == after;
    assert Remove(before, dir, d) == before;
  }

  /** Removing the only entry meant to go: what is left is the rest of the list, in order. */
  lemma RemoveOnly<T>(l: seq<T>, dir: T -> Direction, d: Direction, i: nat)
    requires i < |l| && Matches(d, dir(l[i]))
    requires forall j :: 0 <= j < |l| && j != i ==> !Matches(d, dir(l[j]))
    ensures Remove(l, dir, d) == l[..i] + l[i + 1..]
  {
    var before, after := l[..i], l[i + 1..];
    assert forall j :: 0 <= j < |before| ==> before[j] == l[j];
    assert forall j :: 0 <= j < |after| ==> after[j] == l[i + 1 + j];
    assert l == before + ([l[i]] + after);
    RemoveDropsOne(before, l[i], after, dir, d);
  }

  /** `list.remove` of the only entry meant to go drops its position. */
  lemma RemoveFirstOnly<T>(l: seq<T>, dir: T -> Direction, d: Direction, i: nat)
    requires i < |l| && Matches(d, dir(l[i]))
    requires forall j :: 0 <= j < i ==> !Matches(d, dir(l[j]))
    ensures RemoveFirst(l, l[i]) == l[..i] + l[i + 1..]
  {
    forall j | 0 <= j < i ensures l[j] != l[i] {
      assert !Matches(d, dir(l[j]));
    }
    RemoveFirstAt(l, i);
  }

  /** Once the only entry meant to go is dropped, the loop as written finds nothing more. */
  lemma SweepPastOnly<T>(l: seq<T>, dir: T -> Direction, d: Direction, i: nat)
    requires i < |l|
    requires forall j :: i < j < |l| ==> !Matches(d, dir(l[j]))
    ensures SweepAsWritten(l[..i] + l[i + 1..], dir, d, i + 1) == l[..i] + l[i + 1..]
  {
    var rest := l[..i] + l[i + 1..];
    forall j | i + 1 <= j < |rest| ensures !Matches(d, dir(rest[j])) {
      assert rest[j] == l[j + 1];
    }
    SweepNone(rest, dir, d, i + 1);
  }

  /** The loop as written reaching the only entry meant to go: it drops it and nothing more. */
  lemma SweepOnly<T>(l: seq<T>, dir: T -> Direction, d: Direction, i: nat)
    requires i < |l| && Matches(d, dir(l[i]))
    requires forall j :: 0 <= j < |l| && j != i ==> !Matches(d, dir(l[j]))
    ensures SweepAsWritten(l, dir, d, i) == l[..i] + l[i + 1..]
  {
    assert SweepAsWritten(l, dir, d, i) == SweepAsWritten(RemoveFirst(l, l[i]), dir, d, i + 1);
    RemoveFirstOnly(l, dir, d, i);
    SweepPastOnly(l, dir, d, i);
  }

  lemma {:induction false} SweepAgreesFrom<T>(l: seq<T>, dir: T -> Direction, d: Direction, i: nat)
    requires AtMostOneMatch(l, dir, d)
    requires forall j :: 0 <= j < i && j < |l| ==> !Matches(d, dir(l[j]))
    ensures SweepAsWritten(l, dir, d, i) == Remove(l, dir, d)
    decreases |l| - i
  {
    if i >= |l| {
      RemoveNone(l, dir, d);
    } else if Matches(d, dir(l[i])) {
      assert forall j :: 0 <= j < |l| && j != i ==> !Matches(d, dir(l[j])) by {
        forall j | 0 <= j < |l| && j != i ensures !Matches(d, dir(l[j])) {
          if j > i {
            assert Matches(d, dir(l[i]));
          }
        }
      }
      SweepOnly(l, dir, d, i);
      RemoveOnly(l, dir, d, i);
    } else {
      SweepAgreesFrom(l, dir, d, i + 1);
    }
  }

  /**
   * The loop as written skips only the entry that slides into a freed position, so it does what
   * is intended whenever at most one entry is of the direction removed.
   */
  lemma SweepAgreesOnSingle<T>(l: seq<T>, dir: T -> Direction, d: Direction)
    requires AtMostOneMatch(l, dir, d)
    ensures SweepAsWritten(l, dir, d, 0) == Remove(l, dir, d)
  {
    SweepAgreesFrom(l, dir, d, 0);
  }

  // ---------------------------------------------------------------- priorities

  /**
   * The priority loops: at the first position of the common prefix where the lists differ, the
   * verdict is whether the new priority is the greater; `None` when the common prefix is equal.
   */
  function Decide(p: seq<nat>, q: seq<nat>): (r: Option<bool>)
    ensures r.None? ==> forall i :: 0 <= i < |p| && i < |q| ==> p[i] == q[i]
  {
    if |p| == 0 || |q| == 0 then None
    else if p[0] > q[0] then Some(true)
    else if p[0] < q[0] then Some(false)
    else Decide(p[1..], q[1..])
  }

  lemma {:induction false} DecideAt(p: seq<nat>, q: seq<nat>, k: nat)
    requires k < |p| && k < |q| && p[k] != q[k]
    requires forall j :: 0 <= j < k ==> p[j] == q[j]
    ensures Decide(p, q) == Some(p[k] > q[k])
  {
    if k > 0 {
      DecideAt(p[1..], q[1..], k - 1);
    }
  }

  lemma {:induction false} DecideNone(p: seq<nat>, q: seq<nat>)
    requires forall j :: 0 <= j < |p| && j < |q| ==> p[j] == q[j]
    ensures Decide(p, q).None?
  {
    if |p| > 0 && |q| > 0 {
      DecideNone(p[1..], q[1..]);
    }
  }

  /** The BIDIRECTIONAL loop decides only where the new priority beats, or loses to, both lists. */
  predicate Splits(p: seq<nat>, u: seq<nat>, d: seq<nat>, i: nat)
    requires i < |p| && i < |u| && i < |d|
  {
    (p[i] > u[i] && p[i] > d[i]) || (p[i] < u[i] && p[i] < d[i])
  }

  function DecideBoth(p: seq<nat>, u: seq<nat>, d: seq<nat>): Option<bool>
  {
    if |p| == 0 || |u| == 0 || |d| == 0 then None
    else if p[0] > u[0] && p[0] > d[0] then Some(true)
    else if p[0] < u[0] && p[0] < d[0] then Some(false)
    else DecideBoth(p[1..], u[1..], d[1..])
  }

  lemma {:induction false} DecideBothAt(p: seq<nat>, u: seq<nat>, d: seq<nat>, k: nat)
    requires k < |p| && k < |u| && k < |d| && Splits(p, u, d, k)
    requires forall j :: 0 <= j < k ==> !Splits(p, u, d, j)
    ensures DecideBoth(p, u, d) == Some(p[k] > u[k])
  {
    if k > 0 {
      assert !Splits(p, u, d, 0);
      forall j | 0 <= j < k - 1
        ensures !Splits(p[1..], u[1..], d[1..], j)
      {
        assert !Splits(p, u, d, j + 1);
      }
      DecideBothAt(p[1..], u[1..], d[1..], k - 1);
    }
  }

  lemma {:induction false} DecideBothNone(p: seq<nat>, u: seq<nat>, d: seq<nat>)
    requires forall j :: 0 <= j < |p| && j < |u| && j < |d| ==> !Splits(p, u, d, j)
    ensures DecideBoth(p, u, d).None?
  {
    if |p| > 0 && |u| > 0 && |d| > 0 {
      assert !Splits(p, u, d, 0);
      forall j | 0 <= j < |p| - 1 && j < |u| - 1 && j < |d| - 1
        ensures !Splits(p[1..], u[1..], d[1..], j)
      {
        assert !Splits(p, u, d, j + 1);
      }
      DecideBothNone(p[1..], u[1..], d[1..]);
    }
  }

  /**
   * `InternetService.compare_priorities(priorities, p_type)` as written: an undecided downstream
   * comparison goes on into the BIDIRECTIONAL loop, because the upstream test is a second `if`.
   */
  function Compare(p: seq<nat>, up: seq<nat>, dw: seq<nat>, pType: Direction): bool
  {
    if pType == Downstream && Decide(p, dw).Some? then Decide(p, dw).value
    else if pType == Upstream then Decide(p, up).GetOr(false)
    else DecideBoth(p, up, dw).GetOr(false)
  }

  /**
   * The fall-through is harmless: once the downstream loop finds the common prefix equal, no
   * position of the BIDIRECTIONAL loop lets the new list beat or lose to the downstream list.
   * So each direction compares against its own list only.
   */
  lemma ComparePerDirection(p: seq<nat>, up: seq<nat>, dw: seq<nat>)
    ensures Compare(p, up, dw, Downstream) == Decide(p, dw).GetOr(false)
    ensures Compare(p, up, dw, Upstream) == Decide(p, up).GetOr(false)
  {
    if Decide(p, dw).None? {
      forall j | 0 <= j < |p| && j < |up| && j < |dw|
        ensures !Splits(p, up, dw, j)
      {
        assert p[j] == dw[j];
      }
      DecideBothNone(p, up, dw);
    }
  }

  /** An equal common prefix, an empty list among them, never wins. */
  lemma EqualPrefixLoses(p: seq<nat>, q: seq<nat>)
    requires forall j :: 0 <= j < |p| && j < |q| ==> p[j] == q[j]
    ensures Decide(p, q).GetOr(false) == false
  {
    DecideNone(p, q);
  }

  /** A comparison loop over the common prefix of `p` and `q`. */
  method DecideLoop(p: seq<nat>, q: seq<nat>) returns (r: Option<bool>)
    ensures r == Decide(p, q)
  {
    var i := 0;
    while i < |p| && i < |q|
      invariant 0 <= i <= |p| && i <= |q|
      invariant forall j :: 0 <= j < i ==> p[j] == q[j]
    {
      if p[i] > q[i] {
        DecideAt(p, q, i);
        return Some(true);
      } else if p[i] < q[i] {
        DecideAt(p, q, i);
        return Some(false);
      }
      i := i + 1;
    }
    DecideNone(p, q);
    return None;
  }

  /** The BIDIRECTIONAL comparison loop. */
  method DecideBothLoop(p: seq<nat>, u: seq<nat>, d: seq<nat>) returns (r: Option<bool>)
    ensures r == DecideBoth(p, u, d)
  {
    var i := 0;
    while i < |p| && i < |u| && i < |d|
      invariant 0 <= i <= |p| && i <= |u| && i <= |d|
      invariant forall j :: 0 <= j < i ==> !Splits(p, u, d, j)
    {
      if p[i] > u[i] && p[i] > d[i] {
        DecideBothAt(p, u, d, i);
        return Some(true);
      } else if p[i] < u[i] && p[i] < d[i] {
        DecideBothAt(p, u, d, i);
        return Some(false);
      }
      i := i + 1;
    }
    DecideBothNone(p, u, d);
    return None;
  }

  // ---------------------------------------------------------------- tags

  /**
   * The tag choice of `generate_InternetService`, `generate_VoipService` and
   * `generate_MulticastService`: a service tag in 1..4095 makes a double-tagged service whose
   * downstream action pops the outer tag and whose upstream action pushes it.
   */
  datatype TagPlan = TagPlan(tagType: string, dwCmds: seq<string>, upCmds: seq<string>, oVid: nat, iVid: Option<nat>)

  function PlanTags(sTag: Option<nat>, cTag: nat): (t: TagPlan)
  {
    if sTag.Some? && 0 < sTag.value < 4096 then
      TagPlan("double_tag", ["remove_outer_tag"], ["add_outer_tag"], sTag.value, Some(cTag))
    else
      TagPlan("single_tag", [], [], cTag, None)
  }

  /** The classifiers and the upstream action the unicast generators build from a plan. */
  function PlannedDwClassifier(t: TagPlan): Classifier
  {
    Classifier(t.oVid, OrZero(t.iVid), t.tagType)
  }

  function PlannedUpClassifier(cTag: nat): Classifier
  {
    Classifier(cTag, 0, "single_tag")
  }

  function PlannedUpAction(sTag: Option<nat>, t: TagPlan): Action
  {
    ActionOf(sTag, None, None, None, t.upCmds)
  }

  /** Only a double-tagged plan carries commands: the downstream pop and the upstream push. */
  lemma PlanCommands(sTag: Option<nat>, cTag: nat)
    ensures var t := PlanTags(sTag, cTag);
            && (t.tagType == "double_tag" <==> sTag.Some? && 0 < sTag.value < 4096)
            && ActionOf(None, None, None, None, t.dwCmds).cmd
               == (if t.tagType == "double_tag" then NoCmd.(removeOuter := true) else NoCmd)
            && PlannedUpAction(sTag, t).cmd
               == (if t.tagType == "double_tag" then NoCmd.(addOuter := true) else NoCmd)
  {
  }

  /** `get_c_tags_configuration`: downstream C and S tags, upstream C and S tags. */
  datatype TagConfig = TagConfig(dwC: nat, upC: nat, dwS: nat, upS: nat)

  function CTagsOf(dwCl: Classifier, upCl: Classifier, upAct: Action): TagConfig
  {
    var dwS := if dwCl.iVid > 0 then dwCl.oVid else 0;
    var dwC := if dwS > 0 then dwCl.iVid else dwCl.oVid;
    TagConfig(dwC, upCl.oVid, dwS, upAct.oVid)
  }

  /** The test that makes the two flows of a service symmetric (the tags are never `None`). */
  predicate SameTags(t: TagConfig)
  {
    t.dwC == t.upC && t.dwS == t.upS
  }

  /**
   * The downstream and upstream halves of a generated service read back the same tags exactly
   * when there is no service tag, the service tag is 0, or the service is double-tagged with a
   * positive customer tag. A service tag of 4096 or more gives single-tagged classifiers but an
   * upstream action that still carries it, so its flows are never marked symmetric.
   */
  lemma PlannedTagsSymmetric(sTag: Option<nat>, cTag: nat)
    ensures var t := PlanTags(sTag, cTag);
            SameTags(CTagsOf(PlannedDwClassifier(t), PlannedUpClassifier(cTag), PlannedUpAction(sTag, t)))
            <==> sTag.None? || sTag.value == 0 || (sTag.value < 4096 && cTag > 0)
  {
  }

  /** For a double-tagged classifier with a positive inner tag the readback is (inner, outer). */
  lemma CTagsDoubleTagged(dwCl: Classifier, upCl: Classifier, upAct: Action)
    requires dwCl.iVid > 0 && dwCl.oVid > 0
    ensures CTagsOf(dwCl, upCl, upAct).dwC == dwCl.iVid && CTagsOf(dwCl, upCl, upAct).dwS == dwCl.oVid
  {
  }

  // ---------------------------------------------------------------- unicast services

  /** `voipServer`: the SIP server address and port. */
  datatype VoipServer = VoipServer(ipAddress: nat, port: nat)

  /**
   * `voipExtension`: the fields `generate_VoipService` fills. An exhausted extension range
   * stores `None` for the number and the password.
   */
  datatype Extension = Extension(
    extension: Option<int>,
    password: Option<string>,
    ipAddress: Option<nat>,
    mask: string,
    gateway: nat,
    rtpPort: Option<nat>)

  /**
   * `InternetService`, and `VoipService` with its server and extension (an Internet service
   * leaves those `None`). `techProfileId` is the random id the constructor draws.
   */
  class UnicastService {
    const intfId: nat
    const onuId: nat
    const uniId: nat
    const portNo: nat
    const techProfileId: nat

    var scheds: seq<Sched>
    var queues: seq<Queue>
    var gemportId: Option<nat>
    var dwClassifier: Classifier
    var dwAction: Action
    var upClassifier: Classifier
    var upAction: Action
    var downstreamFlowId: nat
    var upstreamFlowId: nat
    var dwPriorities: seq<nat>
    var upPriorities: seq<nat>
    var voipServer: Option<VoipServer>
    var extension: Option<Extension>

    constructor (intfId: nat, onuId: nat, uniId: nat, portNo: nat, techProfileId: nat)
      ensures this.intfId == intfId && this.onuId == onuId && this.uniId == uniId
      ensures this.portNo == portNo && this.techProfileId == techProfileId
      ensures scheds == [] && queues == [] && gemportId.None?
      ensures dwClassifier == DefaultClassifier && upClassifier == DefaultClassifier
      ensures dwAction == DefaultAction && upAction == DefaultAction
      ensures downstreamFlowId == 0 && upstreamFlowId == 0
      ensures dwPriorities == [] && upPriorities == []
      ensures voipServer.None? && extension.None?
    {
      this.intfId, this.onuId, this.uniId, this.portNo := intfId, onuId, uniId, portNo;
      this.techProfileId := techProfileId;
      scheds, queues, gemportId := [], [], None;
      dwClassifier, upClassifier := DefaultClassifier, DefaultClassifier;
      dwAction, upAction := DefaultAction, DefaultAction;
      downstreamFlowId, upstreamFlowId := 0, 0;
      dwPriorities, upPriorities := [], [];
      voipServer, extension := None, None;
    }

    /** `add_traffic_sched`: appends one scheduler stamped with the service's profile id. */
    method AddTrafficSched(direction: Direction, allocId: Option<nat>, additionalBw: nat, priority: Option<nat>,
                           weight: Option<nat>, cir: Option<nat>, pir: Option<nat>, pbs: Option<nat>)
      modifies this`scheds
      ensures scheds == old(scheds) + [Sched(direction, OrZero(allocId), additionalBw, OrZero(priority),
                                             OrZero(weight), OrZero(cir), OrZero(pir), OrZero(pbs), techProfileId)]
    {
      scheds := scheds + [Sched(direction, OrZero(allocId), additionalBw, OrZero(priority),
                                OrZero(weight), OrZero(cir), OrZero(pir), OrZero(pbs), techProfileId)];
    }

    /** `remove_traffic_schedulers(direction)`, as intended (see `SweepAsWritten`). */
    method RemoveTrafficSchedulers(d: Direction)
      modifies this`scheds
      ensures scheds == Remove(old(scheds), SchedDir, d)
    {
      scheds := Remove(scheds, SchedDir, d);
    }

    /** `add_traffic_queue`: appends one queue; a given GEM port becomes the service's. */
    method AddTrafficQueue(direction: Direction, gemport: Option<nat>, priority: Option<nat>, weight: Option<nat>)
      modifies this`queues, this`gemportId
      ensures queues == old(queues) + [Queue(direction, OrZero(gemport), OrZero(priority), OrZero(weight))]
      ensures gemportId == if gemport.Some? then gemport else old(gemportId)
    {
      queues := queues + [Queue(direction, OrZero(gemport), OrZero(priority), OrZero(weight))];
      if gemport.Some? {
        gemportId := gemport;
      }
    }

    /** `remove_traffic_queues(direction)`, as intended. */
    method RemoveTrafficQueues(d: Direction)
      modifies this`queues
      ensures queues == Remove(old(queues), QueueDir, d)
    {
      queues := Remove(queues, QueueDir, d);
    }

    /** `get_traffic_schedulers`: `None` when the list is empty. */
    function GetTrafficSchedulers(): (r: Option<TrafficSchedulers>)
      reads this
      ensures r.None? <==> |scheds| == 0
      ensures r.Some? ==> r.value.scheds == scheds && r.value.intfId == intfId && r.value.portNo == portNo
    {
      if |scheds| == 0 then None else Some(TrafficSchedulers(intfId, onuId, uniId, portNo, scheds))
    }

    function GetTrafficQueues(): (r: Option<TrafficQueues>)
      reads this
      ensures r.None? <==> |queues| == 0
      ensures r.Some? ==> r.value.queues == queues && r.value.techProfileId == techProfileId
    {
      if |queues| == 0 then None else Some(TrafficQueues(intfId, onuId, uniId, portNo, techProfileId, queues))
    }

    /** The schedulers of one direction under the service's header. */
    function SchedulersIn(d: Direction): TrafficSchedulers
      reads this
    {
      TrafficSchedulers(intfId, onuId, uniId, portNo, Select(scheds, SchedDir, d))
    }

    /** The queues of one direction under the service's header. */
    function QueuesIn(d: Direction): TrafficQueues
      reads this
    {
      TrafficQueues(intfId, onuId, uniId, portNo, techProfileId, Select(queues, QueueDir, d))
    }

    /** `get_downstream_trafficSchedulers` (d = DOWNSTREAM) and `get_upstream_trafficSchedulers`. */
    method GetTrafficSchedulersIn(d: Direction) returns (r: TrafficSchedulers)
      ensures r.scheds == Select(scheds, SchedDir, d)
      ensures r.intfId == intfId && r.onuId == onuId && r.uniId == uniId && r.portNo == portNo
      ensures r == SchedulersIn(d)
    {
      var s := SelectLoop(scheds, SchedDir, d);
      r := TrafficSchedulers(intfId, onuId, uniId, portNo, s);
    }

    /** `get_downstream_trafficQueues` and `get_upstream_trafficQueues`. */
    method GetTrafficQueuesIn(d: Direction) returns (r: TrafficQueues)
      ensures r.queues == Select(queues, QueueDir, d)
      ensures r.intfId == intfId && r.onuId == onuId && r.uniId == uniId && r.portNo == portNo
      ensures r.techProfileId == techProfileId
      ensures r == QueuesIn(d)
    {
      var q := SelectLoop(queues, QueueDir, d);
      r := TrafficQueues(intfId, onuId, uniId, portNo, techProfileId, q);
    }

    /** `update_servicePriorities(priorities, p_type)`: BIDIRECTIONAL sets both lists. */
    method UpdateServicePriorities(priorities: seq<nat>, pType: Direction)
      modifies this`dwPriorities, this`upPriorities
      ensures dwPriorities == if pType != Upstream then priorities else old(dwPriorities)
      ensures upPriorities == if pType != Downstream then priorities else old(upPriorities)
    {
      if pType == Downstream {
        dwPriorities := priorities;
      } else if pType == Upstream {
        upPriorities := priorities;
      } else {
        dwPriorities := priorities;
        upPriorities := priorities;
      }
    }

    /** `compare_priorities(priorities, p_type)`, with its loops. */
    method ComparePriorities(priorities: seq<nat>, pType: Direction) returns (b: bool)
      ensures b == Compare(priorities, upPriorities, dwPriorities, pType)
    {
      if pType == Downstream {
        var r := DecideLoop(priorities, dwPriorities);
        if r.Some? {
          return r.value;
        }
      }
      if pType == Upstream {
        var r := DecideLoop(priorities, upPriorities);
        return r.GetOr(false);
      }
      var r := DecideBothLoop(priorities, upPriorities, dwPriorities);
      return r.GetOr(false);
    }

    method GenerateDownstreamClassifier(oVid: Option<nat>, iVid: Option<nat>, tagType: string)
      modifies this`dwClassifier
      ensures dwClassifier == Classifier(OrZero(oVid), OrZero(iVid), tagType)
    {
      dwClassifier := Classifier(OrZero(oVid), OrZero(iVid), tagType);
    }

    method GenerateUpstreamClassifier(oVid: Option<nat>, iVid: Option<nat>, tagType: string)
      modifies this`upClassifier
      ensures upClassifier == Classifier(OrZero(oVid), OrZero(iVid), tagType)
    {
      upClassifier := Classifier(OrZero(oVid), OrZero(iVid), tagType);
    }

    method GenerateDownstreamAction(oVid: Option<nat>, oPbits: Option<nat>, iVid: Option<nat>, iPbits: Option<nat>,
                                    cmds: seq<string>)
      modifies this`dwAction
      ensures dwAction == ActionOf(oVid, oPbits, iVid, iPbits, cmds)
    {
      dwAction := ActionOf(oVid, oPbits, iVid, iPbits, cmds);
    }

    method GenerateUpstreamAction(oVid: Option<nat>, oPbits: Option<nat>, iVid: Option<nat>, iPbits: Option<nat>,
                                  cmds: seq<string>)
      modifies this`upAction
      ensures upAction == ActionOf(oVid, oPbits, iVid, iPbits, cmds)
    {
      upAction := ActionOf(oVid, oPbits, iVid, iPbits, cmds);
    }

    /** `get_c_tags_configuration`. */
    function CTags(): TagConfig
      reads this
    {
      CTagsOf(dwClassifier, upClassifier, upAction)
    }

    /** The flow `generate_downstream_flow(flow_id)` builds. */
    function DownstreamFlow(flowId: nat): Option<Flow>
      reads this
    {
      if |dwPriorities| == 0 then None
      else Some(Flow(intfId, onuId, uniId, flowId, if SameTags(CTags()) then upstreamFlowId else 0,
                     "downstream", NNI_IF, OrZero(gemportId), dwClassifier, dwAction,
                     dwPriorities[0], flowId, portNo, 0, techProfileId))
    }

    /** The flow `generate_upstream_flow(flow_id)` builds. */
    function UpstreamFlow(flowId: nat): Option<Flow>
      reads this
    {
      if |upPriorities| == 0 then None
      else Some(Flow(intfId, onuId, uniId, flowId, if SameTags(CTags()) then downstreamFlowId else 0,
                     "upstream", NNI_IF, OrZero(gemportId), upClassifier, upAction,
                     upPriorities[0], flowId, portNo, 0, techProfileId))
    }

    /**
     * `generate_downstream_flow(flow_id)`: `None` without downstream priorities; otherwise the
     * flow at the first priority, symmetric to the upstream flow when the tags agree, and its
     * id is recorded.
     */
    method GenerateDownstreamFlow(flowId: nat) returns (f: Option<Flow>)
      modifies this`downstreamFlowId
      ensures |dwPriorities| == 0 ==> f.None? && downstreamFlowId == old(downstreamFlowId)
      ensures |dwPriorities| > 0 ==>
        && downstreamFlowId == flowId
        && f == Some(Flow(intfId, onuId, uniId, flowId,
                          if SameTags(CTags()) then upstreamFlowId else 0,
                          "downstream", NNI_IF, OrZero(gemportId), dwClassifier, dwAction,
                          dwPriorities[0], flowId, portNo, 0, techProfileId))
      ensures f == old(DownstreamFlow(flowId))
    {
      if |dwPriorities| == 0 {
        return None;
      }
      var symmetric := if SameTags(CTags()) then upstreamFlowId else 0;
      f := Some(Flow(intfId, onuId, uniId, flowId, symmetric, "downstream", NNI_IF, OrZero(gemportId),
                     dwClassifier, dwAction, dwPriorities[0], flowId, portNo, 0, techProfileId));
      downstreamFlowId := flowId;
    }

    method CleanDownstreamFlow()
      modifies this`downstreamFlowId
      ensures downstreamFlowId == 0
    {
      downstreamFlowId := 0;
    }

    /** `generate_upstream_flow(flow_id)`, the mirror image. */
    method GenerateUpstreamFlow(flowId: nat) returns (f: Option<Flow>)
      modifies this`upstreamFlowId
      ensures |upPriorities| == 0 ==> f.None? && upstreamFlowId == old(upstreamFlowId)
      ensures |upPriorities| > 0 ==>
        && upstreamFlowId == flowId
        && f == Some(Flow(intfId, onuId, uniId, flowId,
                          if SameTags(CTags()) then downstreamFlowId else 0,
                          "upstream", NNI_IF, OrZero(gemportId), upClassifier, upAction,
                          upPriorities[0], flowId, portNo, 0, techProfileId))
      ensures f == old(UpstreamFlow(flowId))
    {
      if |upPriorities| == 0 {
        return None;
      }
      var symmetric := if SameTags(CTags()) then downstreamFlowId else 0;
      f := Some(Flow(intfId, onuId, uniId, flowId, symmetric, "upstream", NNI_IF, OrZero(gemportId),
                     upClassifier, upAction, upPriorities[0], flowId, portNo, 0, techProfileId));
      upstreamFlowId := flowId;
    }

    method CleanUpstreamFlow()
      modifies this`upstreamFlowId
      ensures upstreamFlowId == 0
    {
      upstreamFlowId := 0;
    }

    /** `add_voipServer(ipAddress, port)`. */
    method AddVoipServer(ipAddress: nat, port: nat)
      modifies this`voipServer
      ensures voipServer == Some(VoipServer(ipAddress, port))
    {
      voipServer := Some(VoipServer(ipAddress, port));
    }

    /** `add_extension(...)`: afterwards `extension_exists` holds for the same pair. */
    method AddExtension(e: Extension)
      modifies this`extension
      ensures extension == Some(e)
      ensures ExtensionExists(e.extension, e.password)
    {
      extension := Some(e);
    }

    /** `extension_exists(extension, password)`. */
    function ExtensionExists(ext: Option<int>, password: Option<string>): (b: bool)
      reads this
      ensures b ==> extension.Some?
    {
      extension.Some? && extension.value.extension == ext && extension.value.password == password
    }
  }

  // ---------------------------------------------------------------- multicast services

  /** `openolt_pb2.GroupMember` of a PON interface. */
  datatype GroupMember = GroupMember(interfaceId: nat, gemPortId: nat, priority: nat)

  datatype GroupCommand = AddMembers | RemoveMembers | SetMembers

  datatype Group = Group(groupId: nat, command: GroupCommand, members: seq<GroupMember>, action: Action)

  /** An (ONU, UNI, port) subscriber of a multicast member. */
  datatype UniEntry = UniEntry(onuId: nat, uniId: nat, portNo: nat)

  /**
   * One value of `MulticastService.members`: the subscribers on the interface and the
   * `MulticastMember` service (header intf/0/0/0, profile id = group id).
   */
  datatype Member = Member(
    intfId: nat,
    entries: seq<UniEntry>,
    scheds: seq<Sched>,
    queues: seq<Queue>,
    gemportId: Option<nat>,
    classifier: Classifier,
    flowId: nat)

  function MemberIndex(ms: seq<Member>, intf: nat): (r: Option<nat>)
    ensures r.Some? ==> r.value < |ms| && ms[r.value].intfId == intf
    ensures r.None? ==> forall i :: 0 <= i < |ms| ==> ms[i].intfId != intf
  {
    if |ms| == 0 then None
    else if ms[0].intfId == intf then Some(0)
    else match MemberIndex(ms[1..], intf)
      case None => None
      case Some(i) => Some(i + 1)
  }

  predicate MemberIdsDistinct(ms: seq<Member>)
  {
    forall i, j :: 0 <= i < j < |ms| ==> ms[i].intfId != ms[j].intfId
  }

  predicate EntriesDistinct(es: seq<UniEntry>)
  {
    forall i, j :: 0 <= i < j < |es| ==> es[i] != es[j]
  }

  predicate GroupIdsDistinct(g: seq<GroupMember>)
  {
    forall i, j :: 0 <= i < j < |g| ==> g[i].interfaceId != g[j].interfaceId
  }

  /** The members dict after `add_member`: a new interface gets a member, a known one the entry once. */
  function WithEntry(ms: seq<Member>, intf: nat, e: UniEntry): seq<Member>
  {
    match MemberIndex(ms, intf)
    case None => ms + [Member(intf, [e], [], [], None, DefaultClassifier, 0)]
    case Some(i) =>
      ms[i := ms[i].(entries := if e in ms[i].entries then ms[i].entries else ms[i].entries + [e])]
  }

  /**
   * `add_member` keeps one member per interface with distinct entries; afterwards the interface
   * has a member holding the entry, and the list grew exactly when the interface was new.
   */
  lemma WithEntryAdds(ms: seq<Member>, intf: nat, e: UniEntry)
    requires MemberIdsDistinct(ms)
    requires forall i :: 0 <= i < |ms| ==> EntriesDistinct(ms[i].entries)
    ensures var r := WithEntry(ms, intf, e);
            && MemberIdsDistinct(r)
            && (forall i :: 0 <= i < |r| ==> EntriesDistinct(r[i].entries))
            && MemberIndex(r, intf).Some?
            && e in r[MemberIndex(r, intf).value].entries
            && |r| == if MemberIndex(ms, intf).None? then |ms| + 1 else |ms|
  {
    var r := WithEntry(ms, intf, e);
    match MemberIndex(ms, intf)
    case None =>
      assert r[|ms|].intfId == intf;
      MemberIndexUnique(r, intf, |ms|);
    case Some(i) =>
      MemberIndexUnique(r, intf, i);
  }

  lemma MemberIndexUnique(ms: seq<Member>, intf: nat, i: nat)
    requires MemberIdsDistinct(ms)
    requires i < |ms| && ms[i].intfId == intf
    ensures MemberIndex(ms, intf) == Some(i)
  {
    assert forall j :: 0 <= j < i ==> ms[j].intfId != intf;
    MemberIndexFirst(ms, intf, i);
  }

  /** `exists_GroupMember(intf_id)` as intended: some group member is on the interface. */
  function GroupHas(g: seq<GroupMember>, intf: nat): (b: bool)
    ensures b <==> exists i :: 0 <= i < |g| && g[i].interfaceId == intf
  {
    if |g| == 0 then false else g[0].interfaceId == intf || GroupHas(g[1..], intf)
  }

  /** `MulticastGroup.add_member(intf_id)` as intended. */
  function GroupAdd(g: seq<GroupMember>, intf: nat, gemport: nat): seq<GroupMember>
  {
    if GroupHas(g, intf) then g else g + [GroupMember(intf, gemport, 0)]
  }

  /**
   * `MulticastGroup.add_member` as written: the membership test reads `member.intf_id`, a field
   * `GroupMember` does not have (it is `interface_id`), so it raises AttributeError (`None`) as
   * soon as the group has a member; only the first interface is ever added.
   */
  function GroupAddAsWritten(g: seq<GroupMember>, intf: nat, gemport: nat): Option<seq<GroupMember>>
  {
    if |g| == 0 then Some(g + [GroupMember(intf, gemport, 0)]) else None
  }

  /** A multicast group reaching a second PON interface raises as written. */
  lemma SecondInterfaceRaises(gemport: nat)
    ensures GroupAddAsWritten([GroupMember(0, gemport, 0)], 1, gemport).None?
    ensures GroupAdd([GroupMember(0, gemport, 0)], 1, gemport)
            == [GroupMember(0, gemport, 0), GroupMember(1, gemport, 0)]
  {
    assert !GroupHas([GroupMember(0, gemport, 0)], 1);
  }

  /** On the empty group, the only state in which the written code survives, the two agree. */
  lemma GroupAddAgreesOnEmpty(intf: nat, gemport: nat)
    ensures GroupAddAsWritten([], intf, gemport) == Some(GroupAdd([], intf, gemport))
  {
  }

  /** The intended group never lists an interface twice and always lists the added one. */
  lemma GroupAddDistinct(g: seq<GroupMember>, intf: nat, gemport: nat)
    requires GroupIdsDistinct(g)
    ensures GroupIdsDistinct(GroupAdd(g, intf, gemport))
    ensures GroupHas(GroupAdd(g, intf, gemport), intf)
  {
    var r := GroupAdd(g, intf, gemport);
    assert exists i :: 0 <= i < |r| && r[i].interfaceId == intf by {
      if !GroupHas(g, intf) {
        assert r[|g|].interfaceId == intf;
      }
    }
  }

  /** A member's schedulers or queues as `get_traffic_schedulers()` / `get_traffic_queues()` return them. */
  function MemberSchedulers(m: Member): (r: Option<TrafficSchedulers>)
    ensures r.None? <==> |m.scheds| == 0
  {
    if |m.scheds| == 0 then None else Some(TrafficSchedulers(m.intfId, 0, 0, 0, m.scheds))
  }

  function MemberQueues(m: Member, groupId: nat): (r: Option<TrafficQueues>)
    ensures r.None? <==> |m.queues| == 0
  {
    if |m.queues| == 0 then None else Some(TrafficQueues(m.intfId, 0, 0, 0, groupId, m.queues))
  }

  /** `MulticastMember.generate_flow(flow_id, priority, gem_port)`. */
  function MemberFlow(m: Member, flowId: nat, priority: nat, gemport: nat, groupId: nat): Flow
  {
    Flow(m.intfId, 0, 0, flowId, 0, "multicast", NNI_IF, gemport, m.classifier, DefaultAction,
         priority, flowId, 0, groupId, groupId)
  }

  /** `get_traffic_schedulers()` of the multicast service: one entry per member, in member order. */
  function MembersSchedulers(ms: seq<Member>): (r: seq<Option<TrafficSchedulers>>)
    ensures |r| == |ms|
  {
    seq(|ms|, i requires 0 <= i < |ms| => MemberSchedulers(ms[i]))
  }

  /** `get_traffic_queues()` of the multicast service. */
  function MembersQueues(ms: seq<Member>, groupId: nat): (r: seq<Option<TrafficQueues>>)
    ensures |r| == |ms|
  {
    seq(|ms|, i requires 0 <= i < |ms| => MemberQueues(ms[i], groupId))
  }

  /** `generate_flows(flow_id)`: none without priorities, else one per member at the first priority. */
  function MembersFlows(ms: seq<Member>, flowId: nat, prios: seq<nat>, gemport: Option<nat>, groupId: nat): seq<Flow>
  {
    if |prios| == 0 then []
    else seq(|ms|, i requires 0 <= i < |ms| => MemberFlow(ms[i], flowId, prios[0], OrZero(gemport), groupId))
  }

  /** The members once each records a flow id. */
  function WithFlowId(ms: seq<Member>, flowId: nat): (r: seq<Member>)
    ensures |r| == |ms|
  {
    seq(|ms|, i requires 0 <= i < |ms| => ms[i].(flowId := flowId))
  }

  /** The members once every queue is dropped. */
  function WithoutQueues(ms: seq<Member>): (r: seq<Member>)
    ensures |r| == |ms|
  {
    seq(|ms|, i requires 0 <= i < |ms| => ms[i].(queues := []))
  }

  /** The members once every scheduler is dropped. */
  function WithoutScheds(ms: seq<Member>): (r: seq<Member>)
    ensures |r| == |ms|
  {
    seq(|ms|, i requires 0 <= i < |ms| => ms[i].(scheds := []))
  }

  /** A member's flow id does not enter its queues or its schedulers. */
  lemma ResourcesIgnoreFlowIds(ms: seq<Member>, x: nat, groupId: nat)
    ensures MembersQueues(WithFlowId(ms, x), groupId) == MembersQueues(ms, groupId)
    ensures MembersSchedulers(WithFlowId(ms, x)) == MembersSchedulers(ms)
  {
    assert forall i :: 0 <= i < |ms| ==> MembersQueues(WithFlowId(ms, x), groupId)[i] == MembersQueues(ms, groupId)[i];
    assert forall i :: 0 <= i < |ms| ==> MembersSchedulers(WithFlowId(ms, x))[i] == MembersSchedulers(ms)[i];
  }

  /** Dropping the queues leaves every member's schedulers as they were. */
  lemma SchedulersIgnoreQueues(ms: seq<Member>)
    ensures MembersSchedulers(WithoutQueues(ms)) == MembersSchedulers(ms)
  {
    assert forall i :: 0 <= i < |ms| ==> MembersSchedulers(WithoutQueues(ms))[i] == MembersSchedulers(ms)[i];
  }

  /** `MulticastMember.get_tags_configuration`: (C tag, S tag). */
  function MemberTags(m: Member): (nat, nat)
  {
    var s := if m.classifier.iVid > 0 then m.classifier.oVid else 0;
    (if s > 0 then m.classifier.iVid else m.classifier.oVid, s)
  }

  /**
   * One member per interface, each subscriber once, and a group of distinct interfaces that all
   * have a member.
   */
  ghost predicate MembersOk(ms: seq<Member>, g: seq<GroupMember>)
  {
    && MemberIdsDistinct(ms)
    && (forall i :: 0 <= i < |ms| ==> EntriesDistinct(ms[i].entries))
    && GroupIdsDistinct(g)
    && (forall i :: 0 <= i < |g| ==> MemberIndex(ms, g[i].interfaceId).Some?)
  }

  /** Two member lists with the same interfaces and subscribers, position by position. */
  predicate SameShape(a: seq<Member>, b: seq<Member>)
  {
    |a| == |b| && forall i :: 0 <= i < |a| ==> a[i].intfId == b[i].intfId && a[i].entries == b[i].entries
  }

  lemma {:induction false} SameShapeIndex(a: seq<Member>, b: seq<Member>, intf: nat)
    requires SameShape(a, b)
    ensures MemberIndex(a, intf) == MemberIndex(b, intf)
  {
    if |a| > 0 {
      assert SameShape(a[1..], b[1..]);
      SameShapeIndex(a[1..], b[1..], intf);
    }
  }

  /** Updating the members' schedulers, queues, classifiers or flow ids keeps the membership sound. */
  lemma ShapeKeepsMembers(a: seq<Member>, b: seq<Member>, g: seq<GroupMember>)
    requires SameShape(a, b) && MembersOk(a, g)
    ensures MembersOk(b, g)
  {
    forall i | 0 <= i < |g|
      ensures MemberIndex(b, g[i].interfaceId).Some?
    {
      SameShapeIndex(a, b, g[i].interfaceId);
    }
  }

  /** `MulticastService`: the group, its members by interface and the flow priorities. */
  class MulticastService {
    const groupId: nat
    const gemportId: Option<nat>

    var action: Action
    var group: seq<GroupMember>
    var members: seq<Member>
    var priorities: seq<nat>

    /**
     * One member per interface, each subscriber once, and the group lists distinct interfaces
     * that all have a member.
     */
    ghost predicate Valid()
      reads this
    {
      MembersOk(members, group)
    }

    constructor (groupId: nat, gemportId: Option<nat>)
      ensures this.groupId == groupId && this.gemportId == gemportId
      ensures action == DefaultAction && group == [] && members == [] && priorities == []
      ensures Valid()
    {
      this.groupId, this.gemportId := groupId, gemportId;
      action, group, members, priorities := DefaultAction, [], [], [];
    }

    method UpdateServicePriorities(p: seq<nat>)
      modifies this`priorities
      ensures priorities == p
    {
      priorities := p;
    }

    /** `compare_priorities(priorities)`: one loop over the common prefix. */
    method ComparePriorities(p: seq<nat>) returns (b: bool)
      ensures b == Decide(p, priorities).GetOr(false)
    {
      var r := DecideLoop(p, priorities);
      return r.GetOr(false);
    }

    /**
     * `add_member(intf_id, onu_id, uni_id, port_no)`: a known interface records the subscriber
     * once; a new one joins the group and gets a fresh member.
     */
    method AddMember(intf: nat, onuId: nat, uniId: nat, portNo: nat)
      requires Valid()
      modifies this`members, this`group
      ensures Valid()
      ensures members == WithEntry(old(members), intf, UniEntry(onuId, uniId, portNo))
      ensures group == if MemberIndex(old(members), intf).Some? then old(group) else GroupAdd(old(group), intf, OrZero(gemportId))
    {
      var e := UniEntry(onuId, uniId, portNo);
      WithEntryAdds(members, intf, e);
      var i := FindMember(members, intf);
      if i.None? {
        GroupAddDistinct(group, intf, OrZero(gemportId));
        group := GroupAdd(group, intf, OrZero(gemportId));
      }
      var old_members := members;
      members := WithEntry(members, intf, e);
      forall k | 0 <= k < |group|
        ensures MemberIndex(members, group[k].interfaceId).Some?
      {
        var x := group[k].interfaceId;
        if x == intf {
        } else {
          var j := MemberIndex(old_members, x).value;
          assert members[j].intfId == x;
          MemberIndexUnique(members, x, j);
        }
      }
    }

    /** `add_traffic_sched(...)`: every member gets one more downstream scheduler. */
    method AddTrafficSched(priority: Option<nat>, weight: Option<nat>, cir: Option<nat>, pir: Option<nat>, pbs: Option<nat>)
      requires Valid()
      modifies this`members
      ensures Valid()
      ensures |members| == |old(members)|
      ensures forall i :: 0 <= i < |members| ==>
        members[i] == old(members)[i].(scheds := old(members)[i].scheds
          + [Sched(Downstream, 0, ADDITIONAL_BW_AUTO, OrZero(priority), OrZero(weight), OrZero(cir), OrZero(pir), OrZero(pbs), groupId)])
    {
      var s := Sched(Downstream, 0, ADDITIONAL_BW_AUTO, OrZero(priority), OrZero(weight), OrZero(cir), OrZero(pir), OrZero(pbs), groupId);
      var k := 0;
      while k < |members|
        invariant 0 <= k <= |members| && |members| == |old(members)|
        invariant forall i :: 0 <= i < k ==> members[i] == old(members)[i].(scheds := old(members)[i].scheds + [s])
        invariant forall i :: k <= i < |members| ==> members[i] == old(members)[i]
      {
        members := members[k := members[k].(scheds := members[k].scheds + [s])];
        k := k + 1;
      }
      ShapeKeepsMembers(old(members), members, group);
    }

    /** `remove_traffic_schedulers()`: BIDIRECTIONAL on every member, so all are dropped. */
    method RemoveTrafficSchedulers()
      requires Valid()
      modifies this`members
      ensures Valid()
      ensures members == WithoutScheds(old(members))
    {
      var k := 0;
      while k < |members|
        invariant 0 <= k <= |members| && |members| == |old(members)|
        invariant forall i :: 0 <= i < k ==> members[i] == old(members)[i].(scheds := [])
        invariant forall i :: k <= i < |members| ==> members[i] == old(members)[i]
      {
        RemoveBidirectional(members[k].scheds, SchedDir);
        members := members[k := members[k].(scheds := Remove(members[k].scheds, SchedDir, Bidirectional))];
        k := k + 1;
      }
      assert members == WithoutScheds(old(members));
      ShapeKeepsMembers(old(members), members, group);
    }

    /** `add_traffic_queue(...)`: every member gets one downstream queue on the group's GEM port. */
    method AddTrafficQueue(priority: Option<nat>, weight: Option<nat>)
      requires Valid()
      modifies this`members
      ensures Valid()
      ensures |members| == |old(members)|
      ensures forall i :: 0 <= i < |members| ==>
        members[i] == old(members)[i].(
          queues := old(members)[i].queues + [Queue(Downstream, OrZero(gemportId), OrZero(priority), OrZero(weight))],
          gemportId := if gemportId.Some? then gemportId else old(members)[i].gemportId)
    {
      var q := Queue(Downstream, OrZero(gemportId), OrZero(priority), OrZero(weight));
      var k := 0;
      while k < |members|
        invariant 0 <= k <= |members| && |members| == |old(members)|
        invariant forall i :: 0 <= i < k ==>
          members[i] == old(members)[i].(queues := old(members)[i].queues + [q],
                                         gemportId := if gemportId.Some? then gemportId else old(members)[i].gemportId)
        invariant forall i :: k <= i < |members| ==> members[i] == old(members)[i]
      {
        members := members[k := members[k].(queues := members[k].queues + [q],
                                             gemportId := if gemportId.Some? then gemportId else members[k].gemportId)];
        k := k + 1;
      }
      ShapeKeepsMembers(old(members), members, group);
    }

    /** `remove_traffic_queues()`. */
    method RemoveTrafficQueues()
      requires Valid()
      modifies this`members
      ensures Valid()
      ensures members == WithoutQueues(old(members))
    {
      var k := 0;
      while k < |members|
        invariant 0 <= k <= |members| && |members| == |old(members)|
        invariant forall i :: 0 <= i < k ==> members[i] == old(members)[i].(queues := [])
        invariant forall i :: k <= i < |members| ==> members[i] == old(members)[i]
      {
        RemoveBidirectional(members[k].queues, QueueDir);
        members := members[k := members[k].(queues := Remove(members[k].queues, QueueDir, Bidirectional))];
        k := k + 1;
      }
      assert members == WithoutQueues(old(members));
      ShapeKeepsMembers(old(members), members, group);
    }

    /** `get_traffic_schedulers()`: one entry per member, in member order. */
    method AllTrafficSchedulers() returns (r: seq<Option<TrafficSchedulers>>)
      ensures r == MembersSchedulers(members)
    {
      r := [];
      var k := 0;
      while k < |members|
        invariant 0 <= k <= |members| && |r| == k
        invariant forall i :: 0 <= i < k ==> r[i] == MemberSchedulers(members[i])
      {
        r := r + [MemberSchedulers(members[k])];
        k := k + 1;
      }
      assert r == MembersSchedulers(members);
    }

    /** `get_traffic_queues()`. */
    method AllTrafficQueues() returns (r: seq<Option<TrafficQueues>>)
      ensures r == MembersQueues(members, groupId)
    {
      r := [];
      var k := 0;
      while k < |members|
        invariant 0 <= k <= |members| && |r| == k
        invariant forall i :: 0 <= i < k ==> r[i] == MemberQueues(members[i], groupId)
      {
        r := r + [MemberQueues(members[k], groupId)];
        k := k + 1;
      }
      assert r == MembersQueues(members, groupId);
    }

    /** `get_traffic_schedulers(intf_id)`: `None` for an interface without a member. */
    function TrafficSchedulersOf(intf: nat): (r: Option<TrafficSchedulers>)
      reads this
      ensures MemberIndex(members, intf).None? ==> r.None?
      ensures r.Some? ==> r.value.intfId == intf
    {
      match MemberIndex(members, intf)
      case None => None
      case Some(i) => MemberSchedulers(members[i])
    }

    function TrafficQueuesOf(intf: nat): (r: Option<TrafficQueues>)
      reads this
      ensures MemberIndex(members, intf).None? ==> r.None?
      ensures r.Some? ==> r.value.intfId == intf
    {
      match MemberIndex(members, intf)
      case None => None
      case Some(i) => MemberQueues(members[i], groupId)
    }

    /** `generate_classifiers(...)`: every member gets the same classifier. */
    method GenerateClassifiers(oVid: Option<nat>, iVid: Option<nat>, tagType: string)
      requires Valid()
      modifies this`members
      ensures Valid()
      ensures |members| == |old(members)|
      ensures forall i :: 0 <= i < |members| ==>
        members[i] == old(members)[i].(classifier := Classifier(OrZero(oVid), OrZero(iVid), tagType))
    {
      var c := Classifier(OrZero(oVid), OrZero(iVid), tagType);
      var k := 0;
      while k < |members|
        invariant 0 <= k <= |members| && |members| == |old(members)|
        invariant forall i :: 0 <= i < k ==> members[i] == old(members)[i].(classifier := c)
        invariant forall i :: k <= i < |members| ==> members[i] == old(members)[i]
      {
        members := members[k := members[k].(classifier := c)];
        k := k + 1;
      }
      ShapeKeepsMembers(old(members), members, group);
    }

    /** `MulticastGroup.generate_action(...)`. */
    method GenerateAction(oVid: Option<nat>, oPbits: Option<nat>, iVid: Option<nat>, iPbits: Option<nat>, cmds: seq<string>)
      modifies this`action
      ensures action == ActionOf(oVid, oPbits, iVid, iPbits, cmds)
    {
      action := ActionOf(oVid, oPbits, iVid, iPbits, cmds);
    }

    /**
     * `generate_flows(flow_id)`: no flow without priorities; otherwise one flow per member, in
     * member order, at the first priority on the group's GEM port, and each member records the id.
     */
    method GenerateFlows(flowId: nat) returns (flows: seq<Flow>)
      requires Valid()
      modifies this`members
      ensures Valid()
      ensures flows == MembersFlows(old(members), flowId, priorities, gemportId, groupId)
      ensures members == if |priorities| > 0 then WithFlowId(old(members), flowId) else old(members)
    {
      flows := [];
      if |priorities| == 0 {
        return;
      }
      var k := 0;
      while k < |members|
        invariant 0 <= k <= |members| && |members| == |old(members)| && |flows| == k
        invariant forall i :: 0 <= i < k ==> flows[i] == MemberFlow(old(members)[i], flowId, priorities[0], OrZero(gemportId), groupId)
        invariant forall i :: 0 <= i < k ==> members[i] == old(members)[i].(flowId := flowId)
        invariant forall i :: k <= i < |members| ==> members[i] == old(members)[i]
      {
        flows := flows + [MemberFlow(members[k], flowId, priorities[0], OrZero(gemportId), groupId)];
        members := members[k := members[k].(flowId := flowId)];
        k := k + 1;
      }
      assert flows == MembersFlows(old(members), flowId, priorities, gemportId, groupId);
      assert members == WithFlowId(old(members), flowId);
      ShapeKeepsMembers(old(members), members, group);
    }

    /** `clean_flows()`. */
    method CleanFlows()
      requires Valid()
      modifies this`members
      ensures Valid()
      ensures members == WithFlowId(old(members), 0)
    {
      var k := 0;
      while k < |members|
        invariant 0 <= k <= |members| && |members| == |old(members)|
        invariant forall i :: 0 <= i < k ==> members[i] == old(members)[i].(flowId := 0)
        invariant forall i :: k <= i < |members| ==> members[i] == old(members)[i]
      {
        members := members[k := members[k].(flowId := 0)];
        k := k + 1;
      }
      assert members == WithFlowId(old(members), 0);
      ShapeKeepsMembers(old(members), members, group);
    }

    /** `get_tags_configuration()`: the first member's tags; IndexError (`None`) without members. */
    function GetTagsConfiguration(): (r: Option<(nat, nat)>)
      reads this
      ensures r.None? <==> |members| == 0
      ensures r.Some? ==> r.value == MemberTags(members[0])
    {
      if |members| == 0 then None else Some(MemberTags(members[0]))
    }

    /** `get_Group()`: the group without members, to create it. */
    function GetGroup(): (g: Group)
      reads this
      ensures g.groupId == groupId && g.command == AddMembers && g.members == [] && g.action == action
    {
      Group(groupId, AddMembers, [], action)
    }

    /** `get_Group_members()`: the group with its current members. */
    function GetGroupMembers(): (g: Group)
      reads this
      ensures g.groupId == groupId && g.command == AddMembers && g.members == group && g.action == action
    {
      Group(groupId, AddMembers, group, action)
    }

    /** `remove_Group_members()`. */
    method RemoveGroupMembers()
      requires Valid()
      modifies this`group
      ensures group == [] && Valid()
    {
      group := [];
    }
  }

  /** The members dict lookup of `add_member`. */
  method FindMember(ms: seq<Member>, intf: nat) returns (r: Option<nat>)
    ensures r == MemberIndex(ms, intf)
  {
    var k := 0;
    while k < |ms|
      invariant 0 <= k <= |ms|
      invariant forall i :: 0 <= i < k ==> ms[i].intfId != intf
    {
      if ms[k].intfId == intf {
        MemberIndexFirst(ms, intf, k);
        return Some(k);
      }
      k := k + 1;
    }
    return None;
  }

  lemma {:induction false} MemberIndexFirst(ms: seq<Member>, intf: nat, k: nat)
    requires k < |ms| && ms[k].intfId == intf
    requires forall i :: 0 <= i < k ==> ms[i].intfId != intf
    ensures MemberIndex(ms, intf) == Some(k)
  {
    if k > 0 {
      MemberIndexFirst(ms[1..], intf, k - 1);
    }
  }
}
