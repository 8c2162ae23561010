/**
 Endpoint selection of the client: canonical endpoint lists (src/naming/service_discovery.cpp), the
 consistent-hash ring and the transports of a routing snapshot (src/client/rpc_client_impl.cpp).
 Nothing is assumed of the hash function: every result holds for every hash, collisions included.
 */
module HashRing {
  import opened Common

  const VIRTUAL_NODE_COUNT := 128

  datatype Endpoint = Endpoint(host: string, port: nat)

  datatype Entry = Entry(hash: nat, index: nat)

  // ----- The orders used for sorting

  /** `std::string` comparison. */
  predicate StringLess(a: string, b: string) {
    b != [] && (a == [] || a[0] < b[0] || (a[0] == b[0] && StringLess(a[1..], b[1..])))
  }

  predicate EndpointLess(a: Endpoint, b: Endpoint) {
    if a.host != b.host then StringLess(a.host, b.host) else a.port < b.port
  }

  predicate EntryLess(a: Entry, b: Entry) {
    if a.hash != b.hash then a.hash < b.hash else a.index < b.index
  }

  ghost predicate StrictTotal<T(!new)>(less: (T, T) -> bool) {
    && (forall a :: !less(a, a))
    && (forall a, b :: a == b || less(a, b) || less(b, a))
    && (forall a, b, c :: less(a, b) && less(b, c) ==> less(a, c))
  }

  lemma {:induction false} StringLessTotal(a: string, b: string)
    ensures !StringLess(a, a) && (a == b || StringLess(a, b) || StringLess(b, a))
  {
    if a != [] { StringLessTotal(a[1..], if b == [] then b else b[1..]); }
    if a != [] && b != [] && a[0] == b[0] && a[1..] == b[1..] {
      assert a == [a[0]] + a[1..] == [b[0]] + b[1..] == b;
    }
  }

  lemma {:induction false} StringLessTransitive(a: string, b: string, c: string)
    requires StringLess(a, b) && StringLess(b, c)
    ensures StringLess(a, c)
  {
    if a != [] && a[0] == b[0] == c[0] { StringLessTransitive(a[1..], b[1..], c[1..]); }
  }

  lemma {:induction false} EndpointLessTotal()
    ensures StrictTotal(EndpointLess)
  {
    forall a, b ensures !EndpointLess(a, a) && (a == b || EndpointLess(a, b) || EndpointLess(b, a)) {
      StringLessTotal(a.host, b.host);
    }
    forall a, b, c | EndpointLess(a, b) && EndpointLess(b, c) ensures EndpointLess(a, c) {
      StringLessTotal(a.host, b.host);
      if StringLess(a.host, b.host) && StringLess(b.host, c.host) {
        StringLessTransitive(a.host, b.host, c.host);
        StringLessTotal(a.host, a.host);
      }
    }
  }

  lemma {:induction false} EntryLessTotal()
    ensures StrictTotal(EntryLess)
  {
  }

  ghost predicate Ordered<T(!new)>(s: seq<T>, less: (T, T) -> bool) {
    forall i, j :: 0 <= i < j < |s| ==> !less(s[j], s[i])
  }

  ghost predicate StrictlyOrdered<T(!new)>(s: seq<T>, less: (T, T) -> bool) {
    forall i, j :: 0 <= i < j < |s| ==> less(s[i], s[j])
  }

  lemma {:induction false} InsertKeepsOrder<T(!new)>(s: seq<T>, k: nat, x: T, less: (T, T) -> bool)
    requires StrictTotal(less) && Ordered(s, less) && k <= |s|
    requires (forall j :: 0 <= j < k ==> less(s[j], x)) && (k < |s| ==> !less(s[k], x))
    ensures Ordered(s[..k] + [x] + s[k..], less)
  {
    var r := s[..k] + [x] + s[k..];
    forall i, j | 0 <= i < j < |r| ensures !less(r[j], r[i]) {
      if j > k {
        assert r[j] == s[j - 1];
        if i == k && j - 1 > k { assert !less(s[j - 1], s[k]); }
      }
    }
  }

  method Insert<T(!new)>(s: seq<T>, x: T, less: (T, T) -> bool) returns (r: seq<T>)
    requires StrictTotal(less) && Ordered(s, less)
    ensures Ordered(r, less) && multiset(r) == multiset(s) + multiset{x}
  {
    hide StrictTotal, Ordered;
    var k := 0;
    while k < |s| && less(s[k], x)
      invariant k <= |s| && forall j :: 0 <= j < k ==> less(s[j], x)
    {
      k := k + 1;
    }
    InsertKeepsOrder(s, k, x, less);
    assert s == s[..k] + s[k..];
    r := s[..k] + [x] + s[k..];
  }

  /** Stands for `std::ranges::sort`. */
  method Sort<T(!new)>(items: seq<T>, less: (T, T) -> bool) returns (r: seq<T>)
    requires StrictTotal(less)
    ensures Ordered(r, less) && multiset(r) == multiset(items)
  {
    hide StrictTotal;
    r := [];
    for i := 0 to |items|
      invariant Ordered(r, less) && multiset(r) == multiset(items[..i])
    {
      assert items[..i + 1] == items[..i] + [items[i]];
      r := Insert(r, items[i], less);
    }
    assert items[..|items|] == items;
  }

  // ----- Canonical endpoint lists

  ghost predicate Canonical(s: seq<Endpoint>) {
    StrictlyOrdered(s, EndpointLess)
  }

  lemma {:induction false} AppendKeepsCanonical(s: seq<Endpoint>, x: Endpoint)
    requires Canonical(s) && (s != [] ==> x != s[|s| - 1] && !EndpointLess(x, s[|s| - 1]))
    ensures Canonical(s + [x])
  {
    EndpointLessTotal();
    hide EndpointLess;
    assert forall i :: 0 <= i < |s| ==> i == |s| - 1 || EndpointLess(s[i], s[|s| - 1]);
  }

  /** `std::ranges::unique` and `erase`: of each run of equal neighbours the first is kept. */
  method Unique(sorted: seq<Endpoint>) returns (r: seq<Endpoint>)
    requires Ordered(sorted, EndpointLess)
    ensures Canonical(r)
    ensures forall e :: e in r <==> e in sorted
  {
    hide Canonical, EndpointLess;
    r := [];
    assert Canonical(r) by { EmptyIsCanonical(); }
    for i := 0 to |sorted|
      invariant Canonical(r) && (i > 0 ==> r != [] && r[|r| - 1] == sorted[i - 1]) && (i == 0 ==> r == [])
      invariant forall e :: e in r <==> e in sorted[..i]
    {
      assert sorted[..i + 1] == sorted[..i] + [sorted[i]];
      if i == 0 || r[|r| - 1] != sorted[i] {
        AppendKeepsCanonical(r, sorted[i]);
        r := r + [sorted[i]];
      }
    }
    assert sorted[..|sorted|] == sorted;
  }

  lemma {:induction false} EmptyIsCanonical()
    ensures Canonical([])
  {
  }

  /** Whatever order and repetitions discovery reports, the published list is strictly ordered and
      has the same members. */
  method CanonicalizeEndpoints(endpoints: seq<Endpoint>) returns (r: seq<Endpoint>)
    ensures Canonical(r)
    ensures forall e :: e in r <==> e in endpoints
  {
    EndpointLessTotal();
    hide StrictTotal, Ordered, Canonical, EndpointLess;
    var sorted := Sort(endpoints, EndpointLess);
    r := Unique(sorted);
    forall e ensures e in r <==> e in endpoints {
      assert e in sorted <==> e in multiset(sorted);
      assert e in endpoints <==> e in multiset(endpoints);
    }
  }

  /** A set of endpoints has only one canonical list, so equal memberships give equal lists. */
  lemma {:induction false} CanonicalIsUnique(s: seq<Endpoint>, t: seq<Endpoint>)
    requires Canonical(s) && Canonical(t) && (forall e :: e in s <==> e in t)
    ensures s == t
  {
    EndpointLessTotal();
    assert t == [] || t[0] in t;
    if s == [] {
    } else {
      assert s[0] in t && t != [] && t[0] in s;
      var i :| 0 <= i < |t| && t[i] == s[0];
      var j :| 0 <= j < |s| && s[j] == t[0];
      assert s[0] == t[0];
      forall e ensures e in s[1..] <==> e in t[1..] { TailMember(s, e); TailMember(t, e); }
      CanonicalIsUnique(s[1..], t[1..]);
      assert s == [s[0]] + s[1..] && t == [t[0]] + t[1..];
    }
  }

  lemma {:induction false} TailMember(s: seq<Endpoint>, e: Endpoint)
    requires Canonical(s) && s != []
    ensures e in s[1..] <==> e in s && e != s[0]
  {
    EndpointLessTotal();
    if e in s && e != s[0] {
      var i :| 0 <= i < |s| && s[i] == e;
      assert s[1..][i - 1] == e;
    }
    if e in s[1..] {
      var i :| 0 <= i < |s[1..]| && s[1..][i] == e;
      assert s[i + 1] == e && EndpointLess(s[0], e);
    }
  }

  // ----- The ring

  function Decimal(n: nat): string {
    if n < 10 then [['0', '1', '2', '3', '4', '5', '6', '7', '8', '9'][n]]
    else Decimal(n / 10) + Decimal(n % 10)
  }

  function EndpointId(e: Endpoint): string {
    e.host + ":" + Decimal(e.port)
  }

  /** The string whose hash places a virtual node: "host:port#vnode". */
  function NodeName(e: Endpoint, vnode: nat): string {
    EndpointId(e) + "#" + Decimal(vnode)
  }

  function NodeHash(hash: string -> nat, e: Endpoint, vnode: nat): nat {
    hash(NodeName(e, vnode))
  }

  /** The entries in the order in which they are pushed. */
  function PushedEntry(hash: string -> nat, endpoints: seq<Endpoint>, k: nat): Entry
    requires k < |endpoints| * VIRTUAL_NODE_COUNT
  {
    Entry(NodeHash(hash, endpoints[k / VIRTUAL_NODE_COUNT], k % VIRTUAL_NODE_COUNT), k / VIRTUAL_NODE_COUNT)
  }

  function Pushed(hash: string -> nat, endpoints: seq<Endpoint>): (r: seq<Entry>)
    ensures |r| == |endpoints| * VIRTUAL_NODE_COUNT
  {
    seq(|endpoints| * VIRTUAL_NODE_COUNT,
        k requires 0 <= k < |endpoints| * VIRTUAL_NODE_COUNT => PushedEntry(hash, endpoints, k))
  }

  ghost predicate RingOf(hash: string -> nat, endpoints: seq<Endpoint>, ring: seq<Entry>) {
    Ordered(ring, EntryLess) && multiset(ring) == multiset(Pushed(hash, endpoints))
  }

  method BuildHashRing(hash: string -> nat, endpoints: seq<Endpoint>) returns (ring: seq<Entry>)
    ensures RingOf(hash, endpoints, ring) && |ring| == 128 * |endpoints|
  {
    hide NodeHash;
    EntryLessTotal();
    ghost var all := Pushed(hash, endpoints);
    var entries: seq<Entry> := [];
    for i := 0 to |endpoints|
      invariant entries == all[..i * VIRTUAL_NODE_COUNT]
    {
      var v := 0;
      while v < VIRTUAL_NODE_COUNT
        invariant v <= VIRTUAL_NODE_COUNT && entries == all[..i * VIRTUAL_NODE_COUNT + v]
      {
        var entry := Entry(NodeHash(hash, endpoints[i], v), i);
        assert entry == all[i * VIRTUAL_NODE_COUNT + v];
        assert all[..i * VIRTUAL_NODE_COUNT + v + 1] == all[..i * VIRTUAL_NODE_COUNT + v] + [entry];
        entries := entries + [entry];
        v := v + 1;
      }
    }
    assert all[..|all|] == all;
    ring := Sort(entries, EntryLess);
    assert |ring| == |multiset(ring)| == |multiset(all)| == |all|;
  }

  /** `std::ranges::lower_bound` on the hashes. */
  method LowerBound(ring: seq<Entry>, key: nat) returns (first: nat)
    requires Ordered(ring, EntryLess)
    ensures first <= |ring|
    ensures forall j :: 0 <= j < first ==> ring[j].hash < key
    ensures forall j :: first <= j < |ring| ==> key <= ring[j].hash
  {
    var count := |ring|;
    first := 0;
    while count > 0
      invariant 0 <= count && first + count <= |ring|
      invariant forall j :: 0 <= j < first ==> ring[j].hash < key
      invariant forall j :: first + count <= j < |ring| ==> key <= ring[j].hash
      decreases count
    {
      var step := count / 2;
      var it := first + step;
      if ring[it].hash < key {
        assert forall j :: 0 <= j < it ==> !EntryLess(ring[it], ring[j]);
        first, count := it + 1, count - step - 1;
      } else {
        assert forall j :: it < j < |ring| ==> !EntryLess(ring[j], ring[it]);
        count := step;
      }
    }
  }

  // ----- Names of virtual nodes

  /** The number a string of digits denotes. */
  function Value(digits: string): int {
    if digits == "" then 0 else 10 * Value(digits[..|digits| - 1]) + (digits[|digits| - 1] as int - '0' as int)
  }

  predicate IsDigits(s: string) {
    forall i :: 0 <= i < |s| ==> '0' <= s[i] <= '9'
  }

  lemma {:induction false} DecimalDenotes(n: nat)
    ensures Value(Decimal(n)) == n && IsDigits(Decimal(n))
  {
    if 10 <= n {
      DecimalDenotes(n / 10);
      DecimalDenotes(n % 10);
      var front, last := Decimal(n / 10), Decimal(n % 10);
      assert |last| == 1;
      assert (front + last)[..|front|] == front;
      assert last[..0] == "" && Value("") == 0;
    } else {
      assert Decimal(n)[..0] == "" && Value("") == 0;
    }
  }

  lemma {:induction false} NoneBehind(a: string, x: string, c: char)
    requires c !in x
    ensures forall i :: |a| < i < |a + [c] + x| ==> (a + [c] + x)[i] != c
  {
    forall i | |a| < i < |a + [c] + x| ensures (a + [c] + x)[i] != c { assert (a + [c] + x)[i] == x[i - |a| - 1]; }
  }

  /** A separator that does not occur behind it determines both sides. */
  lemma {:induction false} SplitAtLast(a: string, x: string, b: string, y: string, c: char)
    requires a + [c] + x == b + [c] + y && c !in x && c !in y
    ensures a == b && x == y
  {
    var whole := a + [c] + x;
    NoneBehind(a, x, c);
    NoneBehind(b, y, c);
    assert whole[|a|] == c && (b + [c] + y)[|b|] == c;
    assert |a| == |b|;
    assert a == whole[..|a|] && b == whole[..|b|] && x == whole[|a| + 1..] && y == whole[|b| + 1..];
  }

  /** Different virtual nodes have different names, whatever characters the hosts contain. */
  lemma {:induction false} NamesAreDistinct(a: Endpoint, v: nat, b: Endpoint, w: nat)
    ensures NodeName(a, v) == NodeName(b, w) <==> a == b && v == w
  {
    DecimalDenotes(a.port);
    DecimalDenotes(b.port);
    DecimalDenotes(v);
    DecimalDenotes(w);
    if NodeName(a, v) == NodeName(b, w) {
      SplitAtLast(EndpointId(a), Decimal(v), EndpointId(b), Decimal(w), '#');
      SplitAtLast(a.host, Decimal(a.port), b.host, Decimal(b.port), ':');
    }
  }

  lemma {:induction false} NameOfANode()
    ensures NodeName(Endpoint("127.0.0.1", 8001), 127) == "127.0.0.1:8001#127"
  {
    assert Decimal(8001) == "8001" by {
      assert Decimal(80) == "80" && Decimal(800) == Decimal(80) + Decimal(0);
    }
    assert Decimal(127) == "127" by { assert Decimal(12) == "12"; }
  }

  // ----- Which endpoint owns a key

  /** Going clockwise from `key`, node hash `h` of endpoint `a` comes before node hash `j` of `b`. */
  predicate Before(key: nat, h: nat, a: Endpoint, j: nat, b: Endpoint) {
    if (h < key) != (j < key) then key <= h
    else if h != j then h < j
    else EndpointLess(a, b)
  }

  /** `e` has a virtual node that no virtual node of a member comes before. */
  ghost predicate OwnsWith(hash: string -> nat, members: set<Endpoint>, key: nat, e: Endpoint, vnode: nat) {
    && e in members && vnode < VIRTUAL_NODE_COUNT
    && forall a, v :: a in members && 0 <= v < VIRTUAL_NODE_COUNT ==>
         !Before(key, NodeHash(hash, a, v), a, NodeHash(hash, e, vnode), e)
  }

  ghost predicate Owns(hash: string -> nat, members: set<Endpoint>, key: nat, e: Endpoint) {
    exists vnode: nat :: OwnsWith(hash, members, key, e, vnode)
  }

  function Members(endpoints: seq<Endpoint>): set<Endpoint> {
    set e | e in endpoints
  }

  lemma {:induction false} RingHolds(hash: string -> nat, endpoints: seq<Endpoint>, ring: seq<Entry>, i: nat,
      vnode: nat)
    requires RingOf(hash, endpoints, ring) && i < |endpoints| && vnode < VIRTUAL_NODE_COUNT
    ensures Entry(NodeHash(hash, endpoints[i], vnode), i) in ring
  {
    hide NodeHash;
    var all := Pushed(hash, endpoints);
    var k := i * VIRTUAL_NODE_COUNT + vnode;
    assert k / VIRTUAL_NODE_COUNT == i && k % VIRTUAL_NODE_COUNT == vnode;
    assert all[k] == Entry(NodeHash(hash, endpoints[i], vnode), i);
    assert all[k] in multiset(all);
  }

  lemma {:induction false} RingHoldsOnly(hash: string -> nat, endpoints: seq<Endpoint>, ring: seq<Entry>, entry: Entry)
    returns (vnode: nat)
    requires RingOf(hash, endpoints, ring) && entry in ring
    ensures entry.index < |endpoints| && vnode < VIRTUAL_NODE_COUNT
    ensures entry.hash == NodeHash(hash, endpoints[entry.index], vnode)
  {
    hide NodeHash;
    var all := Pushed(hash, endpoints);
    assert entry in multiset(ring);
    var k :| 0 <= k < |all| && all[k] == entry;
    vnode := k % VIRTUAL_NODE_COUNT;
  }

  /** In a canonical list positions are in endpoint order, which breaks ties between equal hashes. */
  lemma {:induction false} IndexOrder(endpoints: seq<Endpoint>, i: nat, j: nat)
    requires Canonical(endpoints) && i < |endpoints| && j < |endpoints| && EndpointLess(endpoints[i], endpoints[j])
    ensures i < j
  {
    EndpointLessTotal();
  }

  /** The chosen position holds the endpoint that owns the key. */
  method SelectStickyStart(hash: string -> nat, stickyKey: string, endpoints: seq<Endpoint>, ring: seq<Entry>)
    returns (index: nat)
    requires stickyKey != "" && Canonical(endpoints) && endpoints != [] && RingOf(hash, endpoints, ring)
    ensures index < |endpoints| && Owns(hash, Members(endpoints), hash(stickyKey), endpoints[index])
  {
    var key := hash(stickyKey);
    RingHolds(hash, endpoints, ring, 0, 0);
    var first := LowerBound(ring, key);
    var at := if first == |ring| then 0 else first;
    index := ring[at].index;
    ghost var vnode := RingHoldsOnly(hash, endpoints, ring, ring[at]);
    FirstOwns(hash, key, endpoints, ring, first, at, vnode);
  }

  lemma {:induction false} FirstOwns(hash: string -> nat, key: nat, endpoints: seq<Endpoint>, ring: seq<Entry>,
      first: nat, at: nat, vnode: nat)
    requires Canonical(endpoints) && RingOf(hash, endpoints, ring) && first <= |ring| && at < |ring|
    requires forall j :: 0 <= j < first ==> ring[j].hash < key
    requires forall j :: first <= j < |ring| ==> key <= ring[j].hash
    requires at == if first == |ring| then 0 else first
    requires ring[at].index < |endpoints| && vnode < VIRTUAL_NODE_COUNT
    requires ring[at].hash == NodeHash(hash, endpoints[ring[at].index], vnode)
    ensures OwnsWith(hash, Members(endpoints), key, endpoints[ring[at].index], vnode)
  {
    var e := endpoints[ring[at].index];
    forall a, v | a in Members(endpoints) && 0 <= v < VIRTUAL_NODE_COUNT
      ensures !Before(key, NodeHash(hash, a, v), a, NodeHash(hash, e, vnode), e)
    {
      var i :| 0 <= i < |endpoints| && endpoints[i] == a;
      RingHolds(hash, endpoints, ring, i, v);
      var k :| 0 <= k < |ring| && ring[k] == Entry(NodeHash(hash, a, v), i);
      if EndpointLess(a, e) { IndexOrder(endpoints, i, ring[at].index); }
      if at < k { assert !EntryLess(ring[k], ring[at]); }
      if k == at { EndpointLessTotal(); }
    }
  }

  lemma {:induction false} OwnerIsUnique(hash: string -> nat, members: set<Endpoint>, key: nat, a: Endpoint,
      b: Endpoint)
    requires Owns(hash, members, key, a) && Owns(hash, members, key, b)
    ensures a == b
  {
    EndpointLessTotal();
    var v: nat :| OwnsWith(hash, members, key, a, v);
    var w: nat :| OwnsWith(hash, members, key, b, w);
    assert !Before(key, NodeHash(hash, a, v), a, NodeHash(hash, b, w), b);
    assert !Before(key, NodeHash(hash, b, w), b, NodeHash(hash, a, v), a);
  }

  /** A member owns the hash of its own virtual node, except when a smaller member has a node with the
      same hash. */
  lemma {:induction false} OwnsItsNodesExactlyWhen(hash: string -> nat, members: set<Endpoint>, e: Endpoint, v: nat)
    requires e in members && v < VIRTUAL_NODE_COUNT
    ensures Owns(hash, members, NodeHash(hash, e, v), e) <==> !Shadowed(hash, members, e, v)
  {
    EndpointLessTotal();
    var key := NodeHash(hash, e, v);
    if Shadowed(hash, members, e, v) {
      var a, w :| a in members && 0 <= w < VIRTUAL_NODE_COUNT && NodeHash(hash, a, w) == key && EndpointLess(a, e);
      forall x: nat ensures !OwnsWith(hash, members, key, e, x) {
        assert Before(key, NodeHash(hash, a, w), a, NodeHash(hash, e, x), e);
      }
    } else {
      assert OwnsWith(hash, members, key, e, v);
    }
  }

  ghost predicate Shadowed(hash: string -> nat, members: set<Endpoint>, e: Endpoint, v: nat) {
    exists a, w :: a in members && 0 <= w < VIRTUAL_NODE_COUNT
      && NodeHash(hash, a, w) == NodeHash(hash, e, v) && EndpointLess(a, e)
  }

  /** With a hash that tells all names apart, every member owns the hash of each of its virtual nodes, so no
      member is left without keys. */
  lemma {:induction false} EveryMemberOwnsKeys(hash: string -> nat, members: set<Endpoint>, e: Endpoint, v: nat)
    requires e in members && v < VIRTUAL_NODE_COUNT && forall x, y :: hash(x) == hash(y) ==> x == y
    ensures Owns(hash, members, NodeHash(hash, e, v), e)
  {
    EndpointLessTotal();
    OwnsItsNodesExactlyWhen(hash, members, e, v);
    if Shadowed(hash, members, e, v) {
      var a, w :| a in members && 0 <= w < VIRTUAL_NODE_COUNT
                  && NodeHash(hash, a, w) == NodeHash(hash, e, v) && EndpointLess(a, e);
      NamesAreDistinct(a, w, e, v);
      assert false;
    }
  }

  lemma {:induction false} OwnsAmongFewer(hash: string -> nat, members: set<Endpoint>, fewer: set<Endpoint>, key: nat,
      e: Endpoint)
    requires Owns(hash, members, key, e) && fewer <= members && e in fewer
    ensures Owns(hash, fewer, key, e)
  {
    var v: nat :| OwnsWith(hash, members, key, e, v);
    assert OwnsWith(hash, fewer, key, e, v);
  }

  /** Consistent hashing.  When the membership changes in any way, a key moves only if it moves to an
      endpoint that joined or away from an endpoint that left. */
  lemma {:induction false} KeysMoveOnlyWithMembers(hash: string -> nat, before: set<Endpoint>, after: set<Endpoint>,
      key: nat, a: Endpoint, b: Endpoint)
    requires Owns(hash, before, key, a) && Owns(hash, after, key, b)
    ensures a == b || b !in before || a !in after
  {
    if b in before && a in after {
      OwnsAmongFewer(hash, before, before * after, key, a);
      OwnsAmongFewer(hash, after, before * after, key, b);
      OwnerIsUnique(hash, before * after, key, a, b);
    }
  }

  /** In particular, after endpoints only join, a key stays or goes to a new one; after endpoints only
      leave, the keys of those that remain stay. */
  lemma {:induction false} JoiningTakesLeavingGives(hash: string -> nat, fewer: set<Endpoint>, more: set<Endpoint>,
      key: nat, a: Endpoint, b: Endpoint)
    requires fewer <= more && Owns(hash, fewer, key, a) && Owns(hash, more, key, b)
    ensures b == a || b in more - fewer
  {
    var v: nat :| OwnsWith(hash, fewer, key, a, v);
    var w: nat :| OwnsWith(hash, more, key, b, w);
    KeysMoveOnlyWithMembers(hash, fewer, more, key, a, b);
  }

  // ----- Routing snapshots

  /** `transports[i]` is the identity of the transport of `endpoints[i]`. */
  datatype Snapshot = Snapshot(endpoints: seq<Endpoint>, transports: seq<nat>, ring: seq<Entry>)

  ghost predicate ValidSnapshot(hash: string -> nat, s: Snapshot) {
    && Canonical(s.endpoints) && |s.transports| == |s.endpoints| && RingOf(hash, s.endpoints, s.ring)
    && (forall i, j :: 0 <= i < j < |s.transports| ==> s.transports[i] != s.transports[j])
  }

  ghost predicate Serves(s: Snapshot, endpoint: Endpoint, transport: nat) {
    |s.transports| == |s.endpoints| &&
    exists i :: 0 <= i < |s.endpoints| && s.endpoints[i] == endpoint && s.transports[i] == transport
  }

  method FindReusableTransport(current: Option<Snapshot>, endpoint: Endpoint) returns (found: Option<nat>)
    requires current.Some? ==> |current.value.transports| == |current.value.endpoints|
    ensures found.None? <==> current.None? || endpoint !in current.value.endpoints
    ensures found.Some? ==> current.Some? && Serves(current.value, endpoint, found.value)
  {
    if current.None? { return None; }
    for i := 0 to |current.value.endpoints|
      invariant endpoint !in current.value.endpoints[..i]
    {
      if current.value.endpoints[i] == endpoint { return Some(current.value.transports[i]); }
    }
    found := None;
  }

  /** Transports that `old` and `s` have in common serve the same endpoint, and every endpoint they
      have in common keeps its transport. */
  ghost predicate Reuses(was: Snapshot, s: Snapshot)
    requires |was.transports| == |was.endpoints| && |s.transports| <= |s.endpoints|
  {
    forall i, j :: 0 <= i < |was.endpoints| && 0 <= j < |s.transports| ==>
      (was.transports[i] == s.transports[j] <==> was.endpoints[i] == s.endpoints[j])
  }

  lemma {:induction false} ReusesFound(hash: string -> nat, was: Snapshot, s: Snapshot, transport: nat)
    requires ValidSnapshot(hash, was) && |s.transports| < |s.endpoints| && Reuses(was, s)
    requires Serves(was, s.endpoints[|s.transports|], transport)
    ensures transport in was.transports && Reuses(was, s.(transports := s.transports + [transport]))
  {
    EndpointLessTotal();
    var k := |s.transports|;
    var m :| 0 <= m < |was.endpoints| && was.endpoints[m] == s.endpoints[k] && was.transports[m] == transport;
    forall i | 0 <= i < |was.endpoints| ensures was.transports[i] == transport <==> was.endpoints[i] == s.endpoints[k] {
      if i < m { assert EndpointLess(was.endpoints[i], was.endpoints[m]); }
      if m < i { assert EndpointLess(was.endpoints[m], was.endpoints[i]); }
    }
  }

  lemma {:induction false} ReusesFresh(hash: string -> nat, was: Snapshot, s: Snapshot, transport: nat)
    requires ValidSnapshot(hash, was) && |s.transports| < |s.endpoints| && Reuses(was, s)
    requires transport !in was.transports && s.endpoints[|s.transports|] !in was.endpoints
    ensures Reuses(was, s.(transports := s.transports + [transport]))
  {
  }

  /** The rebuilding half of `ResolveRoutingSnapshot`; `unused` numbers transports not made yet. */
  method Rebuild(hash: string -> nat, current: Option<Snapshot>, discovered: seq<Endpoint>, unused: nat)
    returns (next: Snapshot, unused': nat)
    requires Canonical(discovered)
    requires current.Some? ==>
               ValidSnapshot(hash, current.value) && forall t :: t in current.value.transports ==> t < unused
    ensures ValidSnapshot(hash, next) && next.endpoints == discovered
    ensures current.Some? ==> Reuses(current.value, next)
    ensures unused <= unused' && forall t :: t in next.transports ==> t < unused'
  {
    EndpointLessTotal();
    unused' := unused;
    var transports: seq<nat> := [];
    for k := 0 to |discovered|
      invariant |transports| == k && unused <= unused'
      invariant forall i :: 0 <= i < k ==> transports[i] < unused'
      invariant forall i, j :: 0 <= i < j < k ==> transports[i] != transports[j]
      invariant current.Some? ==> Reuses(current.value, Snapshot(discovered, transports, []))
      invariant forall j :: 0 <= j < k && transports[j] < unused ==>
                  current.Some? && transports[j] in current.value.transports
    {
      var found := FindReusableTransport(current, discovered[k]);
      assert forall j :: 0 <= j < k ==> discovered[j] != discovered[k];
      if found.Some? {
        ReusesFound(hash, current.value, Snapshot(discovered, transports, []), found.value);
        transports := transports + [found.value];
      } else {
        if current.Some? { ReusesFresh(hash, current.value, Snapshot(discovered, transports, []), unused'); }
        transports := transports + [unused'];
        unused' := unused' + 1;
      }
    }
    var ring := BuildHashRing(hash, discovered);
    next := Snapshot(discovered, transports, ring);
  }

  /** A sticky key keeps its connection across a membership change: if neither its old endpoint left
      nor its new one joined, both snapshots route it to the same transport. */
  lemma {:induction false} StickyKeyKeepsItsTransport(hash: string -> nat, s: Snapshot, next: Snapshot, key: nat,
      i: nat, j: nat)
    requires ValidSnapshot(hash, s) && ValidSnapshot(hash, next) && Reuses(s, next)
    requires i < |s.endpoints| && Owns(hash, Members(s.endpoints), key, s.endpoints[i])
    requires j < |next.endpoints| && Owns(hash, Members(next.endpoints), key, next.endpoints[j])
    requires next.endpoints[j] in s.endpoints && s.endpoints[i] in next.endpoints
    ensures s.transports[i] == next.transports[j] && s.endpoints[i] == next.endpoints[j]
  {
    KeysMoveOnlyWithMembers(hash, Members(s.endpoints), Members(next.endpoints),
                            key, s.endpoints[i], next.endpoints[j]);
  }
}
