/** Chains of bindings: all or nothing, last link wins; and what the reference
    counters of a reachable state are. */
module Chains {
  import opened Core
  import opened MapSums
  import opened ControlState
  import opened ControlInvariant

  /** The last link of a chain that binds `key`. */
  function LastLink(items: seq<ChainBinding>, key: CacheKey): (r: Option<ChainBinding>)
    ensures r.Some? ==> r.value in items && r.value.key == key
    ensures r.None? <==> forall i :: 0 <= i < |items| ==> items[i].key != key
    decreases |items|
  {
    if items == [] then None
    else
      var n := |items| - 1;
      if items[n].key == key then Some(items[n]) else
        var r := LastLink(items[..n], key);
        assert items == items[..n] + [items[n]];
        r
  }

  /** How many links of a chain bind `key`. */
  function LinksFor(items: seq<ChainBinding>, key: CacheKey): (n: nat)
    decreases |items|
  {
    if items == [] then 0
    else LinksFor(items[..|items| - 1], key) + if items[|items| - 1].key == key then 1 else 0
  }

  lemma {:induction false} BindAllAppend(s: State, agent: AgentId, items: seq<ChainBinding>, item: ChainBinding)
    ensures BindAll(s, agent, items + [item]) == BindOne(BindAll(s, agent, items), agent, item)
    decreases |items|
  {
    hide BindOne;
    if items == [] {
      assert [item][1..] == [];
    } else {
      assert (items + [item])[1..] == items[1..] + [item];
      BindAllAppend(BindOne(s, agent, items[0]), agent, items[1..], item);
    }
  }

  function SatRevision(revision: nat, more: nat): (r: nat)
  {
    if revision + more <= U64_MAX then revision + more else U64_MAX
  }

  /** A key is bound to its last link, untouched if it has none, and its
      revision counts every link, even those overwritten within the chain. */
  lemma {:induction false} LastLinkWins(s: State, agent: AgentId, items: seq<ChainBinding>, key: CacheKey)
    ensures var t, last := BindAll(s, agent, items), LastLink(items, key);
            && (key in t.bindings <==> key in s.bindings || last.Some?)
            && (last.Some? ==> t.bindings[key] == BindingRecord(agent, last.value.blocks))
            && (last.None? && key in s.bindings ==> t.bindings[key] == s.bindings[key])
            && t.leases.initialized == s.leases.initialized
            && (s.leases.initialized ==>
                Revision(t.leases, key) == SatRevision(Revision(s.leases, key), LinksFor(items, key)))
    decreases |items|
  {
    hide BindOne, BindAll, Revision;
    if items == [] {
      assert BindAll(s, agent, []) == s by { BindNone(s, agent); }
    } else {
      var n := |items| - 1;
      assert items == items[..n] + [items[n]];
      BindAllAppend(s, agent, items[..n], items[n]);
      LastLinkWins(s, agent, items[..n], key);
      BindOneAt(BindAll(s, agent, items[..n]), agent, items[n], key);
    }
  }

  lemma BindNone(s: State, agent: AgentId)
    ensures BindAll(s, agent, []) == s
  {
  }

  /** What one link changes at one key. */
  lemma BindOneAt(s: State, agent: AgentId, item: ChainBinding, key: CacheKey)
    ensures var t := BindOne(s, agent, item);
            && (key in t.bindings <==> key in s.bindings || key == item.key)
            && (key == item.key ==> t.bindings[key] == BindingRecord(agent, item.blocks))
            && (key != item.key && key in s.bindings ==> t.bindings[key] == s.bindings[key])
            && t.leases.initialized == s.leases.initialized
            && (s.leases.initialized ==>
                Revision(t.leases, key) == SatRevision(Revision(s.leases, key), if key == item.key then 1 else 0))
  {
    hide Acquire, Release, AddChild;
  }

  lemma EdgeAdded(children: map<CacheKey, seq<CacheKey>>, under: Option<CacheKey>, key: CacheKey, parent: CacheKey,
                  kid: CacheKey)
    ensures kid in Children(AddChild(children, under, key), parent)
       <==> kid in Children(children, parent) || (under == Some(parent) && key == kid)
  {
  }

  /** A chain adds exactly the tree edges its links declare and loses none. */
  lemma {:induction false} ChainEdges(s: State, agent: AgentId, items: seq<ChainBinding>, parent: CacheKey,
                                      kid: CacheKey)
    ensures kid in Children(BindAll(s, agent, items).children, parent)
       <==> kid in Children(s.children, parent)
            || exists i :: 0 <= i < |items| && items[i].parent == Some(parent) && items[i].key == kid
    decreases |items|
  {
    hide Acquire, Release, BumpRevision, AddChild, Children;
    if items != [] {
      var n := |items| - 1;
      assert items == items[..n] + [items[n]];
      BindAllAppend(s, agent, items[..n], items[n]);
      EdgeAdded(BindAll(s, agent, items[..n]).children, items[n].parent, items[n].key, parent, kid);
      ChainEdges(s, agent, items[..n], parent, kid);
      assert forall i :: 0 <= i < n ==> items[..n][i] == items[i];
    }
  }

  lemma {:induction false} ChainTouchesLinks(s: State, items: seq<ChainBinding>, i: nat, b: BlockId)
    requires i < |items| && b in BindingTouches(s, items[i])
    ensures b in ChainTouches(s, items)
    decreases |items|
  {
    hide BindingTouches;
    if i > 0 { ChainTouchesLinks(s, items[1..], i - 1, b); }
  }

  lemma ChainApplied(s: State, agent: AgentId, items: seq<ChainBinding>)
    ensures var touched, t := ChainTouches(s, items), BindAll(s, agent, items);
            ApplyOne(s, BindChain(agent, items)) ==
            if |s.fences| + |touched - s.fences.Keys| > MAX_BLOCK_FENCES then Outcome(s, Rejected(FenceCapacity))
            else Outcome(t.(fences := Fence(t.fences, touched, At(t))), Bound)
  {
    hide ChainTouches, BindAll, Fence;
  }

  /** Either no link of a chain is applied, exactly when the fence table has no
      room for the blocks of all of them, or every link is: each key ends at its
      last link and each block a link names or gives up has its fence moved. */
  lemma ChainAllOrNothing(s: State, agent: AgentId, items: seq<ChainBinding>, i: nat, b: BlockId)
    requires i < |items| && b in BindingTouches(s, items[i])
    ensures var o := ApplyOne(s, BindChain(agent, items));
            if |s.fences| + |ChainTouches(s, items) - s.fences.Keys| > MAX_BLOCK_FENCES then
              o == Outcome(s, Rejected(FenceCapacity))
            else
              && o.response == Bound
              && LastLink(items, items[i].key).Some? && items[i].key in o.state.bindings
              && o.state.bindings[items[i].key] == BindingRecord(agent, LastLink(items, items[i].key).value.blocks)
              && b in o.state.fences && o.state.fences[b] == At(s)
  {
    hide ChainTouches, BindingTouches, BindAll, LastLink, ApplyOne;
    ChainApplied(s, agent, items);
    LastLinkWins(s, agent, items, items[i].key);
    ChainTouchesLinks(s, items, i, b);
    BindAllFrame(s, agent, items);
    assert !(forall j :: 0 <= j < |items| ==> items[j].key != items[i].key);
  }

  // -------------------------------------------------------- reference counters

  /** In every reachable state a block's counter is the number of times the
      bindings name it, and it is absent exactly when none does. */
  lemma ReachableRefsExact(s: State, b: BlockId)
    requires Reachable(s)
    ensures RefCount(s.blockRefs, b) == Occurrences(s.bindings, b)
    ensures b in s.blockRefs <==> exists k :: k in s.bindings && b in s.bindings[k].blocks
  {
    hide Reachable, EdgesOk, FencesOk, ReplicasOk, LeasesOk, Occurrences;
    ReachableInv(s);
    if k :| k in s.bindings && b in s.bindings[k].blocks {
      NamedCounts(s.bindings, k, b);
    }
    if b in s.blockRefs {
      CountedIsNamed(s.bindings, b);
    }
  }

  lemma NamedCounts(bindings: map<CacheKey, BindingRecord>, k: CacheKey, b: BlockId)
    requires k in bindings && b in bindings[k].blocks
    ensures Occurrences(bindings, b) > 0
  {
    TotalAtLeast(Weights(bindings, b), k);
    assert b in multiset(bindings[k].blocks);
  }

  lemma CountedIsNamed(bindings: map<CacheKey, BindingRecord>, b: BlockId)
    ensures Occurrences(bindings, b) > 0 ==> exists k :: k in bindings && b in bindings[k].blocks
  {
    if forall k :: k in bindings ==> b !in bindings[k].blocks {
      TotalZero(Weights(bindings, b));
    }
  }

  function Lengths(bindings: map<CacheKey, BindingRecord>): (r: map<CacheKey, nat>)
  {
    map k | k in bindings :: |bindings[k].blocks|
  }

  /** A counter never exceeds the blocks all bindings list together, so 32 bits
      hold it as long as they hold that. */
  lemma RefsBounded(s: State, b: BlockId)
    requires Reachable(s)
    ensures RefCount(s.blockRefs, b) <= Total(Lengths(s.bindings))
  {
    hide Reachable, Total;
    ReachableRefsExact(s, b);
    forall k | k in s.bindings ensures multiset(s.bindings[k].blocks)[b] <= |s.bindings[k].blocks| {
      AtMostAll(s.bindings[k].blocks, b);
    }
    TotalMonotone(Weights(s.bindings, b), Lengths(s.bindings));
  }

  lemma AtMostAll(blocks: seq<BlockId>, b: BlockId)
    ensures multiset(blocks)[b] <= |blocks|
  {
    assert multiset(blocks)[b] <= |multiset(blocks)|;
  }
}
