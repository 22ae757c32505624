/**
 * The group registry: every Group node met while transcoding registers a
 * coordinate frame (its offset and the frame it sits in); a child's `xy`
 * adds the offsets of every frame on the chain from the current group.
 */
module Groups {
  import opened JsText

  /** A registered group: id, offset, and the id of the enclosing group ("" at top level). */
  datatype GroupEntry = GroupEntry(id: string, x: Number, y: Number, parent: string)

  /** The registry position of `id` (registration order), or -1. */
  function Find(groups: seq<GroupEntry>, id: string): (i: int)
    ensures -1 <= i < |groups|
    ensures i >= 0 ==> groups[i].id == id && forall j :: 0 <= j < i ==> groups[j].id != id
    ensures i < 0 ==> forall j :: 0 <= j < |groups| ==> groups[j].id != id
  {
    if |groups| == 0 then -1
    else if groups[0].id == id then 0
    else var i := Find(groups[1..], id); if i < 0 then -1 else i + 1
  }

  predicate Registered(groups: seq<GroupEntry>, id: string)
  {
    Find(groups, id) >= 0
  }

  /** An integer-valued JavaScript number (the `int` formatter yields only these). */
  predicate Integral(n: Number)
  {
    n.NaN? || n.k == 0
  }

  /**
   * The registry invariant: ids are non-empty and distinct, offsets are
   * integers, and a group's parent, when registered, was registered before it.
   */
  predicate WellFormed(groups: seq<GroupEntry>)
  {
    forall i :: 0 <= i < |groups| ==> EntryOk(groups, i)
  }

  /** The invariant for the entry at position i. */
  predicate EntryOk(groups: seq<GroupEntry>, i: int)
  {
    0 <= i < |groups|
    && groups[i].id != "" && Find(groups, groups[i].id) == i
    && Find(groups, groups[i].parent) < i
    && (groups[i].parent == "" || Find(groups, groups[i].parent) >= 0)
    && Integral(groups[i].x) && Integral(groups[i].y)
  }

  lemma {:induction false} FindAppend(groups: seq<GroupEntry>, e: GroupEntry, id: string)
    ensures Find(groups + [e], id) == if Find(groups, id) >= 0 then Find(groups, id) else if e.id == id then |groups| else -1
  {
    if |groups| > 0 && groups[0].id != id {
      assert (groups + [e])[1..] == groups[1..] + [e];
      FindAppend(groups[1..], e, id);
    }
  }

  /**
   * Registering a fresh, non-empty id whose parent is the top level or an
   * already registered group keeps the registry well formed: parent chains
   * stay acyclic.
   */
  lemma AddGroupWellFormed(groups: seq<GroupEntry>, e: GroupEntry)
    requires WellFormed(groups)
    requires e.id != "" && !Registered(groups, e.id)
    requires e.parent == "" || Registered(groups, e.parent)
    requires Integral(e.x) && Integral(e.y)
    ensures WellFormed(groups + [e])
  {
    var g := groups + [e];
    forall i | 0 <= i < |g|
      ensures EntryOk(g, i)
    {
      if i < |groups| { assert EntryOk(groups, i); }
      FindAppend(groups, e, g[i].id);
      FindAppend(groups, e, g[i].parent);
    }
  }

  /** Registering more groups leaves the position of every registered id unchanged. */
  lemma {:induction false} FindPrefix(groups: seq<GroupEntry>, more: seq<GroupEntry>, id: string)
    requires Registered(groups, id)
    ensures Find(groups + more, id) == Find(groups, id)
  {
    var i := Find(groups, id);
    var g := groups + more;
    assert g[i].id == id;
    forall j | 0 <= j < i
      ensures g[j].id != id
    {
      assert g[j] == groups[j];
    }
    FindFirst(g, id, i);
  }

  /** The position of the first entry carrying `id` is what Find reports. */
  lemma {:induction false} FindFirst(groups: seq<GroupEntry>, id: string, i: nat)
    requires i < |groups| && groups[i].id == id
    requires forall j :: 0 <= j < i ==> groups[j].id != id
    ensures Find(groups, id) == i
  {
    if i > 0 {
      FindFirst(groups[1..], id, i - 1);
    }
  }

  /**
   * The `xy` loop: starting from the group at position `i` (or none, -1),
   * add each group's offset to the accumulator and follow its parent link.
   */
  function ChainFrom(groups: seq<GroupEntry>, i: int, acc: (Number, Number)): (Number, Number)
    requires WellFormed(groups) && -1 <= i < |groups|
    decreases i + 1
  {
    if i < 0 then acc
    else
      assert EntryOk(groups, i);
      var g := groups[i];
      ChainFrom(groups, Find(groups, g.parent), (Add(acc.0, g.x), Add(acc.1, g.y)))
  }

  /** The positions of the groups on the chain from position `i`, innermost first. */
  function Chain(groups: seq<GroupEntry>, i: int): (c: seq<nat>)
    requires WellFormed(groups) && -1 <= i < |groups|
    ensures i < 0 <==> |c| == 0
    ensures forall k :: 0 <= k < |c| ==> c[k] < |groups|
    ensures |c| > 0 ==> c[0] == i && groups[c[|c| - 1]].parent == ""
    ensures forall k :: 0 <= k < |c| - 1 ==> c[k + 1] == Find(groups, groups[c[k]].parent) && c[k + 1] < c[k]
    decreases i + 1
  {
    if i < 0 then []
    else
      assert EntryOk(groups, i);
      var rest := Chain(groups, Find(groups, groups[i].parent));
      var c := [i] + rest;
      assert forall k :: 1 <= k < |c| ==> c[k] == rest[k - 1];
      c
  }

  function SumX(groups: seq<GroupEntry>, c: seq<nat>): Number
    requires forall k :: 0 <= k < |c| ==> c[k] < |groups|
  {
    if |c| == 0 then Int(0) else Add(groups[c[0]].x, SumX(groups, c[1..]))
  }

  function SumY(groups: seq<GroupEntry>, c: seq<nat>): Number
    requires forall k :: 0 <= k < |c| ==> c[k] < |groups|
  {
    if |c| == 0 then Int(0) else Add(groups[c[0]].y, SumY(groups, c[1..]))
  }

  lemma AddIntegral(a: Number, b: Number)
    requires Integral(a) && Integral(b)
    ensures Integral(Add(a, b))
    ensures a.Dec? && b.Dec? ==> Add(a, b) == Dec(a.m + b.m, 0)
  {
  }

  lemma AddAssocIntegral(a: Number, b: Number, c: Number)
    requires Integral(a) && Integral(b) && Integral(c)
    ensures Add(Add(a, b), c) == Add(a, Add(b, c))
  {
    AddIntegral(a, b);
    AddIntegral(b, c);
  }

  lemma {:induction false} SumIntegral(groups: seq<GroupEntry>, c: seq<nat>)
    requires WellFormed(groups)
    requires forall k :: 0 <= k < |c| ==> c[k] < |groups|
    ensures Integral(SumX(groups, c)) && Integral(SumY(groups, c))
  {
    if |c| > 0 {
      assert EntryOk(groups, c[0]);
      SumIntegral(groups, c[1..]);
      AddIntegral(groups[c[0]].x, SumX(groups, c[1..]));
      AddIntegral(groups[c[0]].y, SumY(groups, c[1..]));
    }
  }

  /**
   * The `xy` loop adds to its accumulator exactly the sum of the offsets of
   * every group on the chain.
   */
  lemma {:induction false} ChainFromIsSum(groups: seq<GroupEntry>, i: int, acc: (Number, Number))
    requires WellFormed(groups) && -1 <= i < |groups|
    requires Integral(acc.0) && Integral(acc.1)
    ensures ChainFrom(groups, i, acc) == (Add(acc.0, SumX(groups, Chain(groups, i))), Add(acc.1, SumY(groups, Chain(groups, i))))
    decreases i + 1
  {
    if i < 0 {
    } else {
      assert EntryOk(groups, i);
      var g := groups[i];
      var p := Find(groups, g.parent);
      var c := Chain(groups, p);
      assert Chain(groups, i)[1..] == c;
      AddIntegral(acc.0, g.x);
      AddIntegral(acc.1, g.y);
      ChainFromIsSum(groups, p, (Add(acc.0, g.x), Add(acc.1, g.y)));
      SumIntegral(groups, c);
      AddAssocIntegral(acc.0, g.x, SumX(groups, c));
      AddAssocIntegral(acc.1, g.y, SumY(groups, c));
    }
  }

  /** The id given to the n-th generated group. */
  function GenId(n: nat): string
  {
    "group_generated_" + IntToString(n)
  }

  lemma GenIdInjective(a: nat, b: nat)
    requires GenId(a) == GenId(b)
    ensures a == b
  {
    var p := "group_generated_";
    assert GenId(a)[|p|..] == IntToString(a);
    assert GenId(b)[|p|..] == IntToString(b);
    IntToStringInjective(a, b);
  }

  /** The length of the longest registered id. */
  function MaxIdLength(groups: seq<GroupEntry>): (r: nat)
    ensures forall i :: 0 <= i < |groups| ==> |groups[i].id| <= r
  {
    if |groups| == 0 then 0
    else
      var r := MaxIdLength(groups[1..]);
      assert forall i :: 1 <= i < |groups| ==> groups[i] == groups[1..][i - 1];
      if |groups[0].id| > r then |groups[0].id| else r
  }

  /** A generated id can only be registered for a counter below 10^(longest id length): the search is bounded. */
  lemma GenBound(groups: seq<GroupEntry>, n: nat)
    requires Registered(groups, GenId(n))
    ensures n < Pow10(MaxIdLength(groups))
  {
    var i := Find(groups, GenId(n));
    assert |GenId(n)| <= MaxIdLength(groups) by { assert groups[i].id == GenId(n); }
    NatBelowPow10(n);
    Pow10Monotone(|NatToString(n)|, MaxIdLength(groups));
  }

  /** The first generated id from n on that is not registered: n, n+1, … are tried in turn. */
  function FirstFree(groups: seq<GroupEntry>, n: nat): nat
    requires n >= 1
    decreases Pow10(MaxIdLength(groups)) - n
  {
    if Registered(groups, GenId(n)) then
      GenBound(groups, n);
      FirstFree(groups, n + 1)
    else n
  }

  /** FirstFree finds the smallest m >= n whose generated id is not registered. */
  lemma {:induction false} FirstFreeIsLeast(groups: seq<GroupEntry>, n: nat)
    requires n >= 1
    ensures var m := FirstFree(groups, n);
            m >= n && !Registered(groups, GenId(m)) && forall j :: n <= j < m ==> Registered(groups, GenId(j))
    decreases Pow10(MaxIdLength(groups)) - n
  {
    if Registered(groups, GenId(n)) {
      GenBound(groups, n);
      FirstFreeIsLeast(groups, n + 1);
      var m := FirstFree(groups, n + 1);
      assert FirstFree(groups, n) == m;
      assert forall j :: n + 1 <= j < m ==> Registered(groups, GenId(j));
    }
  }

  /**
   * The Group pre-processor's id loop: while the id is empty or registered,
   * try `group_generated_` with the next counter.
   */
  method PickGroupId(groups: seq<GroupEntry>, id: string) returns (r: string, n: nat)
    ensures (r, n) == ChooseGroupId(groups, id)
  {
    r, n := id, 0;
    while r == "" || Registered(groups, r)
      invariant n == 0 ==> r == id
      invariant n > 0 ==> (id == "" || Registered(groups, id)) && r == GenId(n) && FirstFree(groups, n) == FirstFree(groups, 1)
      decreases Pow10(MaxIdLength(groups)) - n
    {
      if n > 0 {
        assert |r| >= |"group_generated_"|;
        GenBound(groups, n);
      }
      n := n + 1;
      r := GenId(n);
    }
  }

  /**
   * The Group id choice: the node's own id when it is non-empty and unused,
   * otherwise `group_generated_n` for the smallest unused n >= 1. The second
   * component is the counter n, 0 when the node's id is kept.
   */
  function ChooseGroupId(groups: seq<GroupEntry>, id: string): (r: (string, nat))
    ensures r.0 != "" && !Registered(groups, r.0)
    ensures r.1 == 0 <==> id != "" && !Registered(groups, id)
    ensures r.1 == 0 ==> r.0 == id
    ensures r.1 > 0 ==> r.0 == GenId(r.1) && forall j :: 1 <= j < r.1 ==> Registered(groups, GenId(j))
  {
    if id != "" && !Registered(groups, id) then (id, 0)
    else
      var n := FirstFree(groups, 1);
      FirstFreeIsLeast(groups, 1);
      (GenId(n), n)
  }
}
