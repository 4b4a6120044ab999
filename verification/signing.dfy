/** The canonical messages agents sign, and the parser that inverts the four
    lease messages. */
module Signing {
  import opened Core
  import opened Encoding

  // "KLPK/reg/v1", "KLPK/bind/v1", "KLPK/chain/v1" and the four lease domains,
  // each ended by a NUL.
  const REGISTER: Bytes := [75, 76, 80, 75, 47, 114, 101, 103, 47, 118, 49, 0]
  const BIND: Bytes := [75, 76, 80, 75, 47, 98, 105, 110, 100, 47, 118, 49, 0]
  const CHAIN: Bytes := [75, 76, 80, 75, 47, 99, 104, 97, 105, 110, 47, 118, 49, 0]
  const BEGIN: Bytes := [75, 76, 80, 75, 47, 108, 101, 97, 115, 101, 47, 98, 101, 103, 105, 110, 47, 118, 49, 0]
  const CANCEL: Bytes := [75, 76, 80, 75, 47, 108, 101, 97, 115, 101, 47, 99, 97, 110, 99, 101, 108, 47, 118, 49, 0]
  const RENEW: Bytes := [75, 76, 80, 75, 47, 108, 101, 97, 115, 101, 47, 114, 101, 110, 101, 119, 47, 118, 49, 0]
  const COMMIT: Bytes := [75, 76, 80, 75, 47, 108, 101, 97, 115, 101, 47, 99, 111, 109, 109, 105, 116, 47, 118, 49, 0]

  /** A list whose length is a machine word. */
  type Ids = s: seq<BlockId> | |s| <= U64_MAX

  datatype LeaseMessage =
    | Begin(agent: AgentId, lease: BlockId, blocks: Ids)
    | Cancel(agent: AgentId, lease: BlockId)
    | Renew(agent: AgentId, lease: BlockId, generation: U64, ttl: U64)
    | Commit(agent: AgentId, lease: BlockId, key: CacheKey, blocks: Ids, parent: Option<CacheKey>, revision: U64)

  // ------------------------------------------------------------------ encoding

  function EncText(t: Text): (b: Bytes)
  {
    LE(|t|, 8) + t
  }

  function EncKey(k: CacheKey): (b: Bytes)
  {
    var f := k.fingerprint;
    EncText(f.modelId) + (EncText(f.tokenizerHash) + (EncText(f.kvLayout) + k.prefixHash.raw))
  }

  function EncIds(ids: Ids): (b: Bytes)
  {
    LE(|ids|, 8) + IdBytes(ids)
  }

  function EncParent(p: Option<CacheKey>): (b: Bytes)
  {
    if p.None? then [0] else [1] + EncKey(p.value)
  }

  function Domain(m: LeaseMessage): (b: Bytes)
  {
    match m
    case Begin(_, _, _) => BEGIN
    case Cancel(_, _) => CANCEL
    case Renew(_, _, _, _) => RENEW
    case Commit(_, _, _, _, _, _) => COMMIT
  }

  function Body(m: LeaseMessage): (b: Bytes)
  {
    match m
    case Begin(_, _, blocks) => EncIds(blocks)
    case Cancel(_, _) => []
    case Renew(_, _, generation, ttl) => LE(generation, 8) + LE(ttl, 8)
    case Commit(_, _, key, blocks, parent, revision) =>
      LE(revision, 8) + (EncKey(key) + (EncIds(blocks) + EncParent(parent)))
  }

  function Encode(m: LeaseMessage): (b: Bytes)
  {
    Domain(m) + (m.agent.raw + (m.lease.raw + Body(m)))
  }

  // ------------------------------------------------------------------- parsing

  datatype Parsed<+T> = Fail | Got(value: T, rest: Bytes)

  function Take(b: Bytes, n: nat): (r: Parsed<Bytes>)
    ensures r.Got? ==> |r.value| == n && b == r.value + r.rest
  {
    if |b| < n then Fail else Got(b[..n], b[n..])
  }

  function ParseU64(b: Bytes): (r: Parsed<U64>)
  {
    var t := Take(b, 8);
    if t.Fail? then Fail
    else
      assert FromLE(t.value) <= U64_MAX by { WordSizes(); FromLERoundTrip(t.value); }
      Got(FromLE(t.value), t.rest)
  }

  function ParseText(b: Bytes): (r: Parsed<Text>)
  {
    var n := ParseU64(b);
    if n.Fail? then Fail
    else
      var t := Take(n.rest, n.value);
      if t.Fail? then Fail else Got(t.value, t.rest)
  }

  function ParseHash(b: Bytes): (r: Parsed<Hash32>)
  {
    var t := Take(b, 32);
    if t.Fail? then Fail else Got(t.value, t.rest)
  }

  function ParseKey(b: Bytes): (r: Parsed<CacheKey>)
  {
    var model := ParseText(b);
    if model.Fail? then Fail
    else
      var tokenizer := ParseText(model.rest);
      if tokenizer.Fail? then Fail
      else
        var layout := ParseText(tokenizer.rest);
        if layout.Fail? then Fail
        else
          var prefix := ParseHash(layout.rest);
          if prefix.Fail? then Fail
          else Got(CacheKey(Fingerprint(model.value, tokenizer.value, layout.value), BlockId(prefix.value)),
                   prefix.rest)
  }

  function ParseIds(b: Bytes): (r: Parsed<Ids>)
  {
    var n := ParseU64(b);
    if n.Fail? then Fail
    else
      var t := Take(n.rest, 32 * n.value);
      if t.Fail? then Fail else Got(Chunks(t.value, n.value), t.rest)
  }

  function ParseParent(b: Bytes): (r: Parsed<Option<CacheKey>>)
  {
    if b == [] || b[0] > 1 then Fail
    else if b[0] == 0 then Got(None, b[1..])
    else
      var k := ParseKey(b[1..]);
      if k.Fail? then Fail else Got(Some(k.value), k.rest)
  }

  /** The fields after the domain, with nothing left over. */
  function ParseBody(domain: Bytes, agent: AgentId, lease: BlockId, b: Bytes): (r: Option<LeaseMessage>)
  {
    if domain == BEGIN then
      var ids := ParseIds(b);
      if ids.Fail? || ids.rest != [] then None else Some(Begin(agent, lease, ids.value))
    else if domain == CANCEL then
      if b != [] then None else Some(Cancel(agent, lease))
    else if domain == RENEW then
      var generation := ParseU64(b);
      if generation.Fail? then None
      else
        var ttl := ParseU64(generation.rest);
        if ttl.Fail? || ttl.rest != [] then None else Some(Renew(agent, lease, generation.value, ttl.value))
    else ParseCommit(agent, lease, b)
  }

  function ParseCommit(agent: AgentId, lease: BlockId, b: Bytes): (r: Option<LeaseMessage>)
  {
    var revision := ParseU64(b);
    if revision.Fail? then None
    else
      var key := ParseKey(revision.rest);
      if key.Fail? then None
      else
        var ids := ParseIds(key.rest);
        if ids.Fail? then None
        else
          var parent := ParseParent(ids.rest);
          if parent.Fail? || parent.rest != [] then None
          else Some(Commit(agent, lease, key.value, ids.value, parent.value, revision.value))
  }

  /** The domain a message starts with, if any. */
  function DomainOf(b: Bytes): (d: Option<Bytes>)
    ensures d.Some? ==> d.value <= b && d.value in {BEGIN, CANCEL, RENEW, COMMIT}
  {
    if BEGIN <= b then Some(BEGIN)
    else if CANCEL <= b then Some(CANCEL)
    else if RENEW <= b then Some(RENEW)
    else if COMMIT <= b then Some(COMMIT)
    else None
  }

  /** A total parser for lease messages. */
  function Parse(b: Bytes): (m: Option<LeaseMessage>)
  {
    var d := DomainOf(b);
    if d.None? then None
    else
      var agent := ParseHash(b[|d.value|..]);
      if agent.Fail? then None
      else
        var lease := ParseHash(agent.rest);
        if lease.Fail? then None else ParseBody(d.value, AgentId(agent.value), BlockId(lease.value), lease.rest)
  }

  // ---------------------------------------------------- each field, both ways

  lemma TakeBack(a: Bytes, rest: Bytes)
    ensures Take(a + rest, |a|) == Got(a, rest)
  {
  }

  lemma U64Ways(n: U64, rest: Bytes, b: Bytes)
    ensures ParseU64(LE(n, 8) + rest) == Got(n, rest)
    ensures ParseU64(b).Got? ==> b == LE(ParseU64(b).value, 8) + ParseU64(b).rest
  {
    hide LE, FromLE;
    WordSizes();
    LERoundTrip(n, 8);
    TakeBack(LE(n, 8), rest);
    var t := Take(b, 8);
    if t.Got? { FromLERoundTrip(t.value); }
  }

  lemma TextWays(t: Text, rest: Bytes, b: Bytes)
    ensures ParseText(EncText(t) + rest) == Got(t, rest)
    ensures ParseText(b).Got? ==> b == EncText(ParseText(b).value) + ParseText(b).rest
  {
    hide LE, ParseU64;
    assert EncText(t) + rest == LE(|t|, 8) + (t + rest);
    U64Ways(|t|, t + rest, b);
    TakeBack(t, rest);
  }

  lemma HashWays(h: Hash32, rest: Bytes, b: Bytes)
    ensures ParseHash(h + rest) == Got(h, rest)
    ensures ParseHash(b).Got? ==> b == ParseHash(b).value + ParseHash(b).rest
  {
    TakeBack(h, rest);
  }

  lemma IdsWays(ids: Ids, rest: Bytes, b: Bytes)
    ensures ParseIds(EncIds(ids) + rest) == Got(ids, rest)
    ensures ParseIds(b).Got? ==> b == EncIds(ParseIds(b).value) + ParseIds(b).rest
  {
    hide LE, ParseU64, IdBytes, Chunks;
    assert EncIds(ids) + rest == LE(|ids|, 8) + (IdBytes(ids) + rest);
    U64Ways(|ids|, IdBytes(ids) + rest, b);
    TakeBack(IdBytes(ids), rest);
    ChunksOfIds(ids);
    var n := ParseU64(b);
    if n.Got? {
      var count: nat := n.value;
      var t := Take(n.rest, 32 * count);
      if t.Got? { IdsOfChunks(t.value, count); }
    }
  }

  lemma KeyForward(k: CacheKey, rest: Bytes)
    ensures ParseKey(EncKey(k) + rest) == Got(k, rest)
  {
    hide EncText, ParseText, ParseHash;
    var f := k.fingerprint;
    var d := k.prefixHash.raw + rest;
    var c := EncText(f.kvLayout) + d;
    var b := EncText(f.tokenizerHash) + c;
    assert EncKey(k) + rest == EncText(f.modelId) + b;
    TextWays(f.modelId, b, []);
    TextWays(f.tokenizerHash, c, []);
    TextWays(f.kvLayout, d, []);
    HashWays(k.prefixHash.raw, rest, []);
  }

  lemma KeyBack(b: Bytes)
    ensures ParseKey(b).Got? ==> b == EncKey(ParseKey(b).value) + ParseKey(b).rest
  {
    hide EncText, ParseText, ParseHash;
    if ParseKey(b).Got? {
      TextWays([], [], b);
      var model := ParseText(b);
      TextWays([], [], model.rest);
      var tokenizer := ParseText(model.rest);
      TextWays([], [], tokenizer.rest);
      var layout := ParseText(tokenizer.rest);
      HashWays(Zeros(32), [], layout.rest);
    }
  }

  lemma ParentWays(p: Option<CacheKey>, rest: Bytes, b: Bytes)
    ensures ParseParent(EncParent(p) + rest) == Got(p, rest)
    ensures ParseParent(b).Got? ==> b == EncParent(ParseParent(b).value) + ParseParent(b).rest
  {
    hide EncKey, ParseKey;
    if p.Some? {
      KeyForward(p.value, rest);
      assert (EncParent(p) + rest)[1..] == EncKey(p.value) + rest;
    }
    if ParseParent(b).Got? && b[0] == 1 {
      KeyBack(b[1..]);
      assert b == [1] + b[1..];
    }
  }

  // ------------------------------------------------------------ whole messages

  lemma CommitForward(m: LeaseMessage)
    requires m.Commit?
    ensures ParseCommit(m.agent, m.lease, Body(m)) == Some(m)
  {
    hide LE, ParseU64, EncKey, ParseKey, EncIds, ParseIds, EncParent, ParseParent;
    var d := EncParent(m.parent);
    var c := EncIds(m.blocks) + d;
    var b := EncKey(m.key) + c;
    U64Ways(m.revision, b, []);
    KeyForward(m.key, c);
    IdsWays(m.blocks, d, []);
    ParentWays(m.parent, [], []);
    assert d + [] == d;
  }

  lemma CommitBack(agent: AgentId, lease: BlockId, b: Bytes)
    ensures var m := ParseCommit(agent, lease, b);
            m.Some? ==> m.value.Commit? && m.value.agent == agent && m.value.lease == lease && Body(m.value) == b
  {
    hide LE, ParseU64, EncKey, ParseKey, EncIds, ParseIds, EncParent, ParseParent;
    if ParseCommit(agent, lease, b).Some? {
      U64Ways(0, [], b);
      var revision := ParseU64(b);
      KeyBack(revision.rest);
      var key := ParseKey(revision.rest);
      IdsWays([], [], key.rest);
      var ids := ParseIds(key.rest);
      ParentWays(None, [], ids.rest);
    }
  }

  lemma BodyForward(m: LeaseMessage)
    ensures ParseBody(Domain(m), m.agent, m.lease, Body(m)) == Some(m)
  {
    hide LE, ParseU64, EncIds, ParseIds, ParseCommit;
    DomainsDiffer();
    match m {
      case Begin(_, _, blocks) =>
        IdsWays(blocks, [], []);
        assert EncIds(blocks) + [] == EncIds(blocks);
      case Cancel(_, _) =>
      case Renew(_, _, generation, ttl) =>
        U64Ways(generation, LE(ttl, 8), []);
        U64Ways(ttl, [], []);
        assert LE(ttl, 8) + [] == LE(ttl, 8);
      case Commit(_, _, _, _, _, _) => CommitForward(m);
    }
  }

  lemma BodyBack(domain: Bytes, agent: AgentId, lease: BlockId, b: Bytes)
    requires domain in {BEGIN, CANCEL, RENEW, COMMIT}
    ensures var m := ParseBody(domain, agent, lease, b);
            m.Some? ==>
              Domain(m.value) == domain && m.value.agent == agent && m.value.lease == lease && Body(m.value) == b
  {
    hide LE, ParseU64, EncIds, ParseIds, ParseCommit;
    DomainsDiffer();
    if domain == BEGIN {
      IdsWays([], [], b);
    } else if domain == RENEW {
      U64Ways(0, [], b);
      if ParseU64(b).Got? { U64Ways(0, [], ParseU64(b).rest); }
    } else if domain == COMMIT {
      CommitBack(agent, lease, b);
    }
  }

  /** The seven domains part within their first 13 bytes, so no message starts
      with two of them. */
  lemma DomainsDiffer()
    ensures REGISTER[5] == 114 && BIND[5] == 98 && CHAIN[5] == 99
    ensures BEGIN[5] == CANCEL[5] == RENEW[5] == COMMIT[5] == 108
    ensures BEGIN[11] == 98 && CANCEL[11] == COMMIT[11] == 99 && RENEW[11] == 114
    ensures CANCEL[12] == 97 && COMMIT[12] == 111
  {
  }

  lemma DomainFound(d: Bytes, rest: Bytes)
    requires d in {BEGIN, CANCEL, RENEW, COMMIT}
    ensures DomainOf(d + rest) == Some(d)
  {
    DomainsDiffer();
    var b := d + rest;
    assert d <= b && b[11] == d[11] && b[12] == d[12];
  }

  /** The parser accepts exactly the bytes the builders write, and gives back
      the message they were built from. */
  lemma ParseExact(b: Bytes, m: LeaseMessage)
    ensures Parse(b) == Some(m) <==> b == Encode(m)
  {
    hide ParseBody, Body, ParseHash, DomainOf, Domain;
    if b == Encode(m) { Forward(m); }
    if Parse(b) == Some(m) { Back(b); }
  }

  lemma Forward(m: LeaseMessage)
    ensures Parse(Encode(m)) == Some(m)
  {
    hide ParseBody, Body, ParseHash, DomainOf;
    var rest := m.agent.raw + (m.lease.raw + Body(m));
    DomainFound(Domain(m), rest);
    assert Encode(m)[|Domain(m)|..] == rest;
    HashWays(m.agent.raw, m.lease.raw + Body(m), []);
    HashWays(m.lease.raw, Body(m), []);
    BodyForward(m);
  }

  lemma Back(b: Bytes)
    ensures Parse(b).Some? ==> Encode(Parse(b).value) == b
  {
    hide ParseBody, Body, ParseHash, DomainOf, Domain;
    if Parse(b).Some? {
      var d := DomainOf(b).value;
      HashWays(Zeros(32), [], b[|d|..]);
      var agent := ParseHash(b[|d|..]);
      HashWays(Zeros(32), [], agent.rest);
      var lease := ParseHash(agent.rest);
      BodyBack(d, AgentId(agent.value), BlockId(lease.value), lease.rest);
      assert b == d + b[|d|..];
    }
  }

  // ------------------------------------------------- all the signed operations

  /** One link of the older messages; its parent is given by its prefix hash. */
  datatype Link = Link(key: CacheKey, blocks: Ids, parent: Option<CacheKey>)

  function LinkBytes(l: Link): (b: Bytes)
  {
    var f := l.key.fingerprint;
    f.modelId + [0] + f.tokenizerHash + [0] + f.kvLayout + [0] + l.key.prefixHash.raw
    + LE(|l.blocks| % 0x1_0000_0000, 4) + IdBytes(l.blocks)
    + if l.parent.None? then [0] else [1] + l.parent.value.prefixHash.raw
  }

  function LinksBytes(ls: seq<Link>): (b: Bytes)
  {
    if ls == [] then [] else LinkBytes(ls[0]) + LinksBytes(ls[1..])
  }

  datatype Operation =
    | Register(agent: AgentId, name: Text)
    | Bind(agent: AgentId, link: Link)
    | Chain(agent: AgentId, links: seq<Link>)
    | Lease(message: LeaseMessage)

  function OperationDomain(o: Operation): (b: Bytes)
  {
    match o
    case Register(_, _) => REGISTER
    case Bind(_, _) => BIND
    case Chain(_, _) => CHAIN
    case Lease(m) => Domain(m)
  }

  function Signed(o: Operation): (b: Bytes)
  {
    match o
    case Register(agent, name) => REGISTER + (agent.raw + name)
    case Bind(agent, link) => BIND + (agent.raw + LinkBytes(link))
    case Chain(agent, links) => CHAIN + (agent.raw + LE(|links| % 0x1_0000_0000, 4) + LinksBytes(links))
    case Lease(m) => Encode(m)
  }

  /** A signature for one operation never validates another: equal bytes come
      from the same domain, and a lease message is signed by nothing else. */
  lemma SignedApart(a: Operation, b: Operation)
    requires Signed(a) == Signed(b)
    ensures OperationDomain(a) == OperationDomain(b)
    ensures a.Lease? ==> a == b
  {
    hide LinkBytes, LinksBytes, Encode, Parse;
    DomainsDiffer();
    StartsWithDomain(a);
    StartsWithDomain(b);
    if a.Lease? {
      LeaseByte(a.message);
      if b.Lease? {
        ParseExact(Signed(a), a.message);
        ParseExact(Signed(b), b.message);
      }
    } else if b.Lease? {
      LeaseByte(b.message);
    }
  }

  lemma StartsWithDomain(o: Operation)
    ensures OperationDomain(o) <= Signed(o) && |OperationDomain(o)| > 5
  {
    hide LinkBytes, LinksBytes, Body;
  }

  lemma LeaseByte(m: LeaseMessage)
    ensures Encode(m)[5] == 108
  {
    hide Body;
    DomainsDiffer();
  }

  // ------------------------------------------------------------- the builders

  method PushText(buf: Bytes, t: Text) returns (r: Bytes)
    ensures r == buf + EncText(t)
  {
    r := buf + LE(|t|, 8);
    r := r + t;
  }

  method PushKey(buf: Bytes, k: CacheKey) returns (r: Bytes)
    ensures r == buf + EncKey(k)
  {
    hide EncText;
    var values: seq<Text> := [k.fingerprint.modelId, k.fingerprint.tokenizerHash, k.fingerprint.kvLayout];
    r := buf;
    for i := 0 to |values|
      invariant r == buf + (if i >= 1 then EncText(values[0]) else []) + (if i >= 2 then EncText(values[1]) else [])
                         + (if i >= 3 then EncText(values[2]) else [])
    {
      r := PushText(r, values[i]);
    }
    r := r + k.prefixHash.raw;
    assert r == buf + EncKey(k);
  }

  method PushIds(buf: Bytes, ids: Ids) returns (r: Bytes)
    ensures r == buf + EncIds(ids)
  {
    hide LE;
    var head := buf + LE(|ids|, 8);
    r := head;
    for i := 0 to |ids|
      invariant r == head + IdBytes(ids[..i])
    {
      IdBytesPush(ids[..i], ids[i]);
      assert ids[..i + 1] == ids[..i] + [ids[i]];
      r := r + ids[i].raw;
    }
    assert ids[..|ids|] == ids;
  }

  method LeaseBegin(agent: AgentId, lease: BlockId, blocks: Ids) returns (buf: Bytes)
    ensures buf == Encode(Begin(agent, lease, blocks))
    ensures Parse(buf) == Some(Begin(agent, lease, blocks))
  {
    hide Parse, EncIds;
    buf := BEGIN;
    buf := buf + agent.raw;
    buf := buf + lease.raw;
    buf := PushIds(buf, blocks);
    Forward(Begin(agent, lease, blocks));
  }

  method LeaseCancel(agent: AgentId, lease: BlockId) returns (buf: Bytes)
    ensures buf == Encode(Cancel(agent, lease))
    ensures Parse(buf) == Some(Cancel(agent, lease))
  {
    hide Parse;
    buf := CANCEL;
    buf := buf + agent.raw;
    buf := buf + lease.raw;
    Forward(Cancel(agent, lease));
  }

  method LeaseRenew(agent: AgentId, lease: BlockId, generation: U64, ttl: U64) returns (buf: Bytes)
    ensures buf == Encode(Renew(agent, lease, generation, ttl))
    ensures Parse(buf) == Some(Renew(agent, lease, generation, ttl))
  {
    hide Parse, LE;
    buf := RENEW;
    buf := buf + agent.raw;
    buf := buf + lease.raw;
    buf := buf + LE(generation, 8);
    buf := buf + LE(ttl, 8);
    Forward(Renew(agent, lease, generation, ttl));
  }

  method LeaseCommit(agent: AgentId, lease: BlockId, key: CacheKey, blocks: Ids, parent: Option<CacheKey>,
                     revision: U64)
    returns (buf: Bytes)
    ensures buf == Encode(Commit(agent, lease, key, blocks, parent, revision))
    ensures Parse(buf) == Some(Commit(agent, lease, key, blocks, parent, revision))
  {
    hide Parse, LE, EncKey, EncIds, EncParent;
    buf := COMMIT;
    buf := buf + agent.raw;
    buf := buf + lease.raw;
    buf := buf + LE(revision, 8);
    buf := PushKey(buf, key);
    buf := PushIds(buf, blocks);
    buf := PushParent(buf, parent);
    Nest(COMMIT, agent.raw, lease.raw, LE(revision, 8), EncKey(key), EncIds(blocks), EncParent(parent));
    Forward(Commit(agent, lease, key, blocks, parent, revision));
  }

  method PushParent(buf: Bytes, parent: Option<CacheKey>) returns (r: Bytes)
    ensures r == buf + EncParent(parent)
  {
    hide EncKey;
    r := buf + [if parent.Some? then 1 else 0];
    if parent.Some? {
      r := PushKey(r, parent.value);
    }
  }

  lemma Nest(a: Bytes, b: Bytes, c: Bytes, d: Bytes, e: Bytes, f: Bytes, g: Bytes)
    ensures a + b + c + d + e + f + g == a + (b + (c + (d + (e + (f + g)))))
  {
    assert a + b + c + d + e + f + g == a + b + c + d + e + (f + g);
    assert a + b + c + d + e + (f + g) == a + b + c + d + (e + (f + g));
    assert a + b + c + d + (e + (f + g)) == a + b + c + (d + (e + (f + g)));
    assert a + b + c + (d + (e + (f + g))) == a + b + (c + (d + (e + (f + g))));
  }
}
