/**
 * `ListOfFlows`: the controller's flows, grouped by table id, and the read-only queries over it.
 */
module FlowStore {
  import opened Wrappers
  import opened Dicts
  import opened OpenFlow

  /** Table id to the flows of that table, in submission order; tables in creation order. */
  type Store = Dict<nat, seq<Flow>>

  /**
   * Every flow sits in the list of its own table (the only way `append` files a flow), and its
   * instruction dictionary is well formed.
   */
  ghost predicate StoreOk(st: Store)
  {
    st.Valid() && forall t, f :: t in st.m && f in st.m[t] ==> f.tableId == t && f.instructions.Valid()
  }

  /** `getFlowsTable(t)`, with an absent table read as empty. */
  function TableFlows(st: Store, t: nat): seq<Flow>
  {
    if t in st.m then st.m[t] else []
  }

  /** Some table holds `f`. */
  ghost predicate Stored(st: Store, f: Flow)
  {
    exists t :: t in st.m && f in st.m[t]
  }

  // ---------------------------------------------------------------- cookies

  function ContainsCookie(fl: seq<Flow>, cookie: nat): (b: bool)
    ensures b <==> exists i :: 0 <= i < |fl| && fl[i].flowId == cookie
  {
    if |fl| == 0 then false
    else if fl[0].flowId == cookie then true
    else
      var b := ContainsCookie(fl[1..], cookie);
      assert forall i :: 0 < i < |fl| ==> fl[i] == fl[1..][i - 1];
      b
  }

  function CountCookie(fl: seq<Flow>, cookie: nat): nat
  {
    if |fl| == 0 then 0
    else (if fl[0].flowId == cookie then 1 else 0) + CountCookie(fl[1..], cookie)
  }

  /** Index of the first flow carrying `cookie`. */
  function FirstCookieIndex(fl: seq<Flow>, cookie: nat): (i: nat)
    requires ContainsCookie(fl, cookie)
    ensures i < |fl| && fl[i].flowId == cookie
    ensures forall j :: 0 <= j < i ==> fl[j].flowId != cookie
  {
    if fl[0].flowId == cookie then 0 else 1 + FirstCookieIndex(fl[1..], cookie)
  }

  /** `list.remove` of the first flow carrying `cookie`. */
  function RemoveFirstCookie(fl: seq<Flow>, cookie: nat): seq<Flow>
  {
    if ContainsCookie(fl, cookie) then
      var i := FirstCookieIndex(fl, cookie);
      fl[..i] + fl[i + 1..]
    else fl
  }

  lemma {:induction false} CountCookieConcat(a: seq<Flow>, b: seq<Flow>, cookie: nat)
    ensures CountCookie(a + b, cookie) == CountCookie(a, cookie) + CountCookie(b, cookie)
  {
    if |a| == 0 {
      assert a + b == b;
    } else {
      assert (a + b)[1..] == a[1..] + b;
      CountCookieConcat(a[1..], b, cookie);
    }
  }

  lemma {:induction false} CountCookieAbsent(a: seq<Flow>, cookie: nat)
    requires forall j :: 0 <= j < |a| ==> a[j].flowId != cookie
    ensures CountCookie(a, cookie) == 0
  {
    if |a| > 0 {
      CountCookieAbsent(a[1..], cookie);
    }
  }

  lemma SplitAround<T>(s: seq<T>, i: nat)
    requires i < |s|
    ensures s == s[..i] + ([s[i]] + s[i + 1..])
  {
  }

  /** A flow carrying `cookie` after none that does is the first one, and the one removed. */
  lemma FirstCookieAt(fl: seq<Flow>, cookie: nat, i: nat)
    requires i < |fl| && fl[i].flowId == cookie
    requires forall j :: 0 <= j < i ==> fl[j].flowId != cookie
    ensures ContainsCookie(fl, cookie) && FirstCookieIndex(fl, cookie) == i
    ensures RemoveFirstCookie(fl, cookie) == fl[..i] + fl[i + 1..]
    ensures forall g :: g in RemoveFirstCookie(fl, cookie) ==> g in fl
  {
    assert ContainsCookie(fl, cookie);
    var k := FirstCookieIndex(fl, cookie);
    assert !(k < i) && !(i < k);
  }

  /** Removing the first flow with a cookie drops exactly one flow carrying it. */
  lemma RemoveFirstCookieCount(fl: seq<Flow>, cookie: nat)
    requires ContainsCookie(fl, cookie)
    ensures CountCookie(RemoveFirstCookie(fl, cookie), cookie) + 1 == CountCookie(fl, cookie)
    ensures |RemoveFirstCookie(fl, cookie)| + 1 == |fl|
  {
    var i := FirstCookieIndex(fl, cookie);
    var a, b := fl[..i], fl[i + 1..];
    assert RemoveFirstCookie(fl, cookie) == a + b;
    SplitAround(fl, i);
    CountCookieConcat(a, [fl[i]] + b, cookie);
    CountCookieConcat([fl[i]], b, cookie);
    CountCookieConcat(a, b, cookie);
    CountCookieAbsent(a, cookie);
    assert CountCookie([fl[i]], cookie) == 1 by {
      assert [fl[i]][1..] == [];
    }
  }

  lemma {:induction false} CountCookieAppend(fl: seq<Flow>, f: Flow, cookie: nat)
    ensures CountCookie(fl + [f], cookie) == CountCookie(fl, cookie) + (if f.flowId == cookie then 1 else 0)
  {
    if |fl| == 0 {
      assert fl + [f] == [f];
    } else {
      assert (fl + [f])[1..] == fl[1..] + [f];
      CountCookieAppend(fl[1..], f, cookie);
    }
  }

  /** `exist(cookie, t)`. */
  function Exist(st: Store, cookie: nat, t: nat): (b: bool)
    ensures b <==> exists f :: f in TableFlows(st, t) && f.flowId == cookie
  {
    var fl := TableFlows(st, t);
    var b := t in st.m && ContainsCookie(fl, cookie);
    assert b ==> exists i :: 0 <= i < |fl| && fl[i].flowId == cookie;
    b
  }

  /** The first flow of `fl` carrying `cookie`. */
  function FirstWithCookie(fl: seq<Flow>, cookie: nat): (r: Option<Flow>)
    ensures r.Some? ==> r.value in fl && r.value.flowId == cookie
    ensures r.None? <==> !ContainsCookie(fl, cookie)
  {
    if |fl| == 0 then None
    else if fl[0].flowId == cookie then Some(fl[0])
    else FirstWithCookie(fl[1..], cookie)
  }

  function FindInTables(st: Store, keys: seq<nat>, cookie: nat): (r: Option<Flow>)
    requires forall k :: k in keys ==> k in st.m
    ensures r.Some? ==> r.value.flowId == cookie && exists t :: t in keys && r.value in st.m[t]
    ensures r.None? <==> forall t :: t in keys ==> !ContainsCookie(st.m[t], cookie)
  {
    if |keys| == 0 then None
    else
      var here := FirstWithCookie(st.m[keys[0]], cookie);
      if here.Some? then here else FindInTables(st, keys[1..], cookie)
  }

  /** `getFlow(cookie)`: the first flow with that cookie, tables taken in creation order. */
  function GetFlow(st: Store, cookie: nat): (r: Option<Flow>)
    requires st.Valid()
    ensures r.Some? ==> r.value.flowId == cookie && Stored(st, r.value)
    ensures r.None? <==> forall t, f :: t in st.m && f in st.m[t] ==> f.flowId != cookie
  {
    var r := FindInTables(st, st.order, cookie);
    assert r.None? ==> forall t :: t in st.m ==> !ContainsCookie(st.m[t], cookie);
    r
  }

  // ---------------------------------------------------------------- meters and groups in use

  function AnyInstrIn(fl: seq<Flow>, k: InstrKey, v: nat): (b: bool)
    ensures b <==> exists f :: f in fl && Instr(f, k) == Some(v)
  {
    if |fl| == 0 then false
    else if Instr(fl[0], k) == Some(v) then true
    else
      var b := AnyInstrIn(fl[1..], k, v);
      assert forall f :: f in fl <==> f == fl[0] || f in fl[1..];
      b
  }

  function AnyInstrInTables(st: Store, keys: seq<nat>, k: InstrKey, v: nat): (b: bool)
    requires forall t :: t in keys ==> t in st.m
    ensures b <==> exists t, f :: t in keys && f in st.m[t] && Instr(f, k) == Some(v)
  {
    if |keys| == 0 then false
    else if AnyInstrIn(st.m[keys[0]], k, v) then true
    else AnyInstrInTables(st, keys[1..], k, v)
  }

  /** Some stored flow carries instruction `k` with value `v`. */
  ghost predicate Uses(st: Store, k: InstrKey, v: nat)
  {
    exists t, f :: t in st.m && f in st.m[t] && Instr(f, k) == Some(v)
  }

  /** `attachedMeter(m)`. */
  function AttachedMeter(st: Store, meterId: nat): (b: bool)
    requires st.Valid()
    ensures b <==> Uses(st, MeterId, meterId)
  {
    AnyInstrInTables(st, st.order, MeterId, meterId)
  }

  /** `attachedGroup(g)`. */
  function AttachedGroup(st: Store, groupId: nat): (b: bool)
    requires st.Valid()
    ensures b <==> Uses(st, GroupId, groupId)
  {
    AnyInstrInTables(st, st.order, GroupId, groupId)
  }

  // ---------------------------------------------------------------- priority order

  predicate ByPriority(s: seq<Flow>)
  {
    forall i, j :: 0 <= i < j < |s| ==> s[i].priority >= s[j].priority
  }

  /** Inserts `x` ahead of the first flow whose priority is not higher, keeping `sorted` stable. */
  function InsertByPriority(x: Flow, s: seq<Flow>): (r: seq<Flow>)
    requires ByPriority(s)
    ensures ByPriority(r)
    ensures multiset(r) == multiset(s) + multiset{x}
    ensures |r| == |s| + 1
    ensures r[0] == if |s| == 0 || s[0].priority <= x.priority then x else s[0]
  {
    if |s| == 0 then [x]
    else if s[0].priority <= x.priority then [x] + s
    else
      var t := InsertByPriority(x, s[1..]);
      assert s == [s[0]] + s[1..];
      assert forall k :: 0 <= k < |t| ==> t[0].priority >= t[k].priority;
      [s[0]] + t
  }

  /** `sorted(flows, key=priority, reverse=True)`. */
  function SortByPriority(s: seq<Flow>): (r: seq<Flow>)
    ensures ByPriority(r)
    ensures multiset(r) == multiset(s)
    ensures forall f :: f in r <==> f in s
  {
    if |s| == 0 then []
    else
      assert s == [s[0]] + s[1..];
      var r := InsertByPriority(s[0], SortByPriority(s[1..]));
      assert forall f :: f in r <==> f in multiset(r);
      assert forall f :: f in s <==> f in multiset(s);
      r
  }

  /** The flows of `s` whose priority is `p`, in their order in `s`. */
  function WithPriority(s: seq<Flow>, p: nat): seq<Flow>
  {
    if |s| == 0 then []
    else (if s[0].priority == p then [s[0]] else []) + WithPriority(s[1..], p)
  }

  /** Exactly the flows of priority `p` are kept. */
  lemma {:induction false} WithPriorityMembers(s: seq<Flow>, p: nat)
    ensures forall f :: f in WithPriority(s, p) <==> f in s && f.priority == p
  {
    if |s| > 0 {
      WithPriorityMembers(s[1..], p);
      assert forall f :: f in s <==> f == s[0] || f in s[1..];
    }
  }

  /** The insertion puts `x` behind every flow of its own priority already in the list. */
  lemma {:induction false} InsertKeepsTies(x: Flow, s: seq<Flow>, p: nat)
    requires ByPriority(s)
    ensures WithPriority(InsertByPriority(x, s), p) ==
            (if x.priority == p then [x] else []) + WithPriority(s, p)
  {
    var r := InsertByPriority(x, s);
    if |s| == 0 || s[0].priority <= x.priority {
      assert r[1..] == s;
      assert WithPriority(r, p) == (if x.priority == p then [x] else []) + WithPriority(r[1..], p);
    } else {
      var t := InsertByPriority(x, s[1..]);
      assert r[1..] == t;
      InsertKeepsTies(x, s[1..], p);
      assert WithPriority(r, p) == (if s[0].priority == p then [s[0]] else []) + WithPriority(t, p);
      assert s[0].priority != p || x.priority != p;
    }
  }

  /**
   * `sorted` is stable: the flows of each priority keep the order they had in the table, which
   * is the order in which a walk over flows of equal priority meets them.
   */
  lemma {:induction false} SortByPriorityStable(s: seq<Flow>, p: nat)
    ensures WithPriority(SortByPriority(s), p) == WithPriority(s, p)
  {
    if |s| > 0 {
      SortByPriorityStable(s[1..], p);
      InsertKeepsTies(s[0], SortByPriority(s[1..]), p);
    }
  }

  // ---------------------------------------------------------------- flows of a port

  /** The per-flow test of `get_port_matched_flows`. */
  predicate PortMatches(f: Flow, port: nat, dir: Direction, groupIds: seq<nat>)
  {
    (dir == Upstream && f.matchFields.inPort == port)
    || (dir == Downstream && Instr(f, GroupId).Some? && Instr(f, GroupId).value in groupIds)
    || (dir == Downstream && Instr(f, OutPort) == Some(port))
  }

  function SelectPort(fl: seq<Flow>, port: nat, dir: Direction, groupIds: seq<nat>): (r: seq<Flow>)
    ensures forall f :: f in r <==> f in fl && PortMatches(f, port, dir, groupIds)
  {
    if |fl| == 0 then []
    else
      var rest := SelectPort(fl[1..], port, dir, groupIds);
      assert forall f :: f in fl <==> f == fl[0] || f in fl[1..];
      if PortMatches(fl[0], port, dir, groupIds) then [fl[0]] + rest else rest
  }

  /** Tables `t, t-1, ..., 0`, each in priority order. */
  function PortFlowsFrom(st: Store, t: nat, port: nat, dir: Direction, groupIds: seq<nat>): (r: seq<Flow>)
    ensures forall f :: f in r <==>
      (exists u :: u <= t && u in st.m && f in st.m[u]) && PortMatches(f, port, dir, groupIds)
    decreases t
  {
    var here := SelectPort(SortByPriority(TableFlows(st, t)), port, dir, groupIds);
    if t == 0 then here
    else
      var rest := PortFlowsFrom(st, t - 1, port, dir, groupIds);
      TablesDownStep(st, t);
      here + rest
  }

  lemma TablesDownStep(st: Store, t: nat)
    requires t > 0
    ensures forall f :: (exists u :: u <= t && u in st.m && f in st.m[u]) <==>
      (t in st.m && f in st.m[t]) || (exists u :: u <= t - 1 && u in st.m && f in st.m[u])
  {
  }

  function MaxOf(s: seq<nat>): (r: nat)
    requires |s| > 0
    ensures r in s && forall x :: x in s ==> x <= r
  {
    if |s| == 1 then s[0]
    else
      var m := MaxOf(s[1..]);
      assert forall x :: x in s ==> x == s[0] || x in s[1..];
      if s[0] >= m then s[0] else m
  }

  /**
   * `get_port_matched_flows(port, dir, groupIds)`: upstream looks at table 0 only, downstream at
   * every table from the highest down. `None` stands for the `ValueError` that `max` raises on an
   * empty store.
   */
  function PortMatchedFlows(st: Store, port: nat, dir: Direction, groupIds: seq<nat>): (r: Option<seq<Flow>>)
    requires st.Valid()
    ensures r.None? <==> dir == Downstream && |st.order| == 0
    ensures r.Some? ==> forall f :: f in r.value <==>
      (Stored(st, f) && PortMatches(f, port, dir, groupIds) && (dir == Upstream ==> f in TableFlows(st, 0)))
  {
    if dir == Downstream then
      if |st.order| == 0 then None
      else
        var top := MaxOf(st.order);
        var r := PortFlowsFrom(st, top, port, dir, groupIds);
        assert forall f :: Stored(st, f) ==> exists u :: u <= top && u in st.m && f in st.m[u];
        Some(r)
    else
      var r := PortFlowsFrom(st, 0, port, dir, groupIds);
      assert forall f :: f in TableFlows(st, 0) <==> 0 in st.m && f in st.m[0];
      Some(r)
  }

  // ---------------------------------------------------------------- get_matched_flow

  predicate Differs(a: Option<nat>, b: Option<nat>)
  {
    a.Some? && b.Some? && a.value != b.value
  }

  /** Two VoIP flows that both carry a UDP port or IPv4 address with different values. */
  predicate VoipMismatch(fp: Flow, c: Flow)
  {
    fp.serviceType == Some(Voip) && c.serviceType == Some(Voip)
    && (Differs(fp.matchFields.udpSrc, c.matchFields.udpSrc)
        || Differs(fp.matchFields.udpDst, c.matchFields.udpDst)
        || Differs(fp.matchFields.ipv4Src, c.matchFields.ipv4Src)
        || Differs(fp.matchFields.ipv4Dst, c.matchFields.ipv4Dst))
  }

  /** The filters every candidate passes: same in-port, same direction, no VoIP mismatch. */
  predicate Candidate(fp: Flow, c: Flow)
  {
    c.matchFields.inPort == fp.matchFields.inPort && c.flowType == fp.flowType && !VoipMismatch(fp, c)
  }

  /**
   * The instruction loop of the backward case, in dictionary order: a set or push of the seed's
   * VLAN marks a match, and each pop toggles the mark.
   */
  function BackVlanMatched(ins: Instructions, keys: seq<InstrKey>, vid: nat, matched: bool): bool
  {
    if |keys| == 0 then matched
    else
      var k := keys[0];
      var next :=
        if (k == SetVlan || k == PushVlan) && ins.Get(k) == Some(vid) then true
        else if k == PopVlan then !matched
        else matched;
      BackVlanMatched(ins, keys[1..], vid, next)
  }

  /** The backward test: the candidate jumps to the seed's table and its VLAN operations lead to it. */
  predicate BackLinks(fp: Flow, c: Flow)
  {
    Instr(c, GotoTable) == Some(fp.tableId)
    && BackVlanMatched(c.instructions, c.instructions.order, fp.matchFields.vlanId, false)
  }

  /** The forward test: the seed sets or pushes the candidate's VLAN. */
  predicate ForwardLinks(fp: Flow, c: Flow)
  {
    Instr(fp, SetVlan) == Some(c.matchFields.vlanId) || Instr(fp, PushVlan) == Some(c.matchFields.vlanId)
  }

  /** The seed only pops: every candidate of the next table follows it. */
  predicate PopOnly(fp: Flow)
  {
    HasInstr(fp, PopVlan) && !HasInstr(fp, SetVlan) && !HasInstr(fp, PushVlan)
    && !HasInstr(fp, OutPort) && !HasInstr(fp, GroupId)
  }

  function ScanBackward(cands: seq<Flow>, fp: Flow): (r: seq<Flow>)
    ensures |r| <= 1
    ensures forall g :: g in r ==> g in cands && Candidate(fp, g) && BackLinks(fp, g)
    ensures |r| == 0 <==> forall c :: c in cands ==> !(Candidate(fp, c) && BackLinks(fp, c))
  {
    if |cands| == 0 then []
    else
      var c := cands[0];
      if Candidate(fp, c) && BackLinks(fp, c) then [c]
      else
        var r := ScanBackward(cands[1..], fp);
        assert forall x :: x in cands <==> x == c || x in cands[1..];
        r
  }

  /** Candidates passing the filters, in order. */
  function FilterCandidates(cands: seq<Flow>, fp: Flow): (r: seq<Flow>)
    ensures forall g :: g in r <==> g in cands && Candidate(fp, g)
  {
    if |cands| == 0 then []
    else
      var rest := FilterCandidates(cands[1..], fp);
      assert forall x :: x in cands <==> x == cands[0] || x in cands[1..];
      if Candidate(fp, cands[0]) then [cands[0]] + rest else rest
  }

  function ScanForward(cands: seq<Flow>, fp: Flow): (r: seq<Flow>)
    ensures forall g :: g in r ==> g in cands && Candidate(fp, g)
    ensures PopOnly(fp) ==> r == FilterCandidates(cands, fp)
    ensures !PopOnly(fp) ==> |r| <= 1 && forall g :: g in r ==> ForwardLinks(fp, g)
  {
    if |cands| == 0 then []
    else
      var c := cands[0];
      var rest := ScanForward(cands[1..], fp);
      assert forall x :: x in cands <==> x == c || x in cands[1..];
      if !Candidate(fp, c) then rest
      else if PopOnly(fp) then [c] + rest
      else if ForwardLinks(fp, c) then [c]
      else rest
  }

  /**
   * `get_matched_flow(fp, t)`: the flows of table `t`, highest priority first, that link to the
   * seed `fp`. A lower table is searched backward (at most the first link), a higher one forward
   * from the seed's `gotoTable`; the seed's own table gives nothing.
   */
  function MatchedFlows(st: Store, fp: Flow, t: nat): (r: seq<Flow>)
    requires StoreOk(st)
    ensures forall g :: g in r ==> g in TableFlows(st, t) && g.tableId == t && Candidate(fp, g)
    ensures t < fp.tableId ==> |r| <= 1 && forall g :: g in r ==> BackLinks(fp, g)
    ensures t == fp.tableId ==> r == []
    ensures t > fp.tableId && Instr(fp, GotoTable) != Some(t) ==> r == []
  {
    var fl := TableFlows(st, t);
    if |fl| == 0 then []
    else
      var cands := SortByPriority(fl);
      if t < fp.tableId then
        ScanBackward(cands, fp)
      else if t > fp.tableId then
        if Instr(fp, GotoTable) != Some(t) then [] else ScanForward(cands, fp)
      else []
  }

  // ---------------------------------------------------------------- the mutable store

  /** `ListOfFlows`: the store object the OpenFlow front end mutates. */
  class FlowTable {
    var store: Store

    ghost predicate Valid()
      reads this
    {
      StoreOk(store)
    }

    constructor ()
      ensures Valid() && store == Dict(map[], [])
    {
      store := Dict(map[], []);
    }

    /**
     * `append(flow)`: files the flow at the end of its table, creating the table on first use.
     * No cookie check is made, so the same cookie can be filed twice.
     */
    method Append(f: Flow)
      requires Valid()
      requires f.instructions.Valid()
      modifies this
      ensures Valid()
      ensures store.m == old(store.m)[f.tableId := old(TableFlows(store, f.tableId)) + [f]]
      ensures store.order == if f.tableId in old(store.m) then old(store.order) else old(store.order) + [f.tableId]
      ensures Exist(store, f.flowId, f.tableId)
      ensures CountCookie(TableFlows(store, f.tableId), f.flowId)
        == old(CountCookie(TableFlows(store, f.tableId), f.flowId)) + 1
    {
      var fl := TableFlows(store, f.tableId);
      CountCookieAppend(fl, f, f.flowId);
      store := store.Put(f.tableId, fl + [f]);
      assert f in TableFlows(store, f.tableId);
    }

    /** `delete(cookie, t)`: removes the first flow of table `t` with that cookie. */
    method Delete(cookie: nat, t: nat) returns (found: bool)
      requires Valid()
      modifies this
      ensures Valid()
      ensures found == old(Exist(store, cookie, t))
      ensures found ==> store == old(store).(m := old(store.m)[t := RemoveFirstCookie(old(store.m[t]), cookie)])
      ensures found ==> CountCookie(TableFlows(store, t), cookie) + 1 == old(CountCookie(TableFlows(store, t), cookie))
      ensures !found ==> store == old(store)
    {
      found := false;
      if t in store.m {
        var fl := store.m[t];
        var i := 0;
        while i < |fl|
          invariant 0 <= i <= |fl|
          invariant forall j :: 0 <= j < i ==> fl[j].flowId != cookie
        {
          if fl[i].flowId == cookie {
            FirstCookieAt(fl, cookie, i);
            RemoveFirstCookieCount(fl, cookie);
            store := store.Put(t, fl[..i] + fl[i + 1..]);
            found := true;
            return;
          }
          i := i + 1;
        }
      }
    }
  }
}
