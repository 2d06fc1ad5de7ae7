/** Which peer carries a packet, and which sources a peer may use: the route table of
    mesh.py, its safety filter, the lookup, the anti-spoofing check and the addresses that
    must bypass a full tunnel. */
module Routing {
  import Bits
  import opened Cidr
  import opened Wrappers

  type Key = nat                     // a public key, opaque

  /** Text that may name an address. IPv4 text is canonical: one text for each address. */
  datatype Text = V4(a: Addr) | V6(hi: nat) | Word(w: string)

  /** What ip_network(…, strict=False) makes of a route text. */
  datatype RouteText = NotANetwork | Net6 | Net4(a: Addr, len: PrefixLen)

  datatype Peer = Peer(key: Key, hostname: Option<Text>, ip: Option<Text>, exit: bool,
                       endpoints: seq<Text>, routes: seq<RouteText>)

  datatype Entry = Entry(net: Net, key: Key)

  // ----- accepting routes -----

  /** The hosts of every advertised endpoint, peer by peer. */
  function EndpointIps(peers: seq<Peer>): seq<Text> {
    if peers == [] then [] else EndpointIps(peers[..|peers| - 1]) + peers[|peers| - 1].endpoints
  }

  /** The addresses that carry the mesh itself. */
  function Guarded(coord: Option<Text>, endpoints: seq<Text>): seq<Text> {
    (if coord.Some? then [coord.value] else []) + endpoints
  }

  /** Whether an advertised route may be used: IPv4, off the overlay, and holding no guarded address. */
  predicate RouteIsSafe(route: RouteText, guarded: seq<Text>) {
    && route.Net4?
    && var net := NetworkOf(route.a, route.len);
       && !Overlaps(net, Overlay())
       && (forall i :: 0 <= i < |guarded| && guarded[i].V4? ==> !In(guarded[i].a, net))
  }

  /** Exactly the IPv4 networks none of whose addresses is in 100.64.0.0/10 or guarded. */
  lemma SafeExactly(route: RouteText, guarded: seq<Text>)
    ensures RouteIsSafe(route, guarded) <==>
            route.Net4? && forall x: Addr :: In(x, NetworkOf(route.a, route.len)) ==>
                             !(0x6440_0000 <= x <= 0x647F_FFFF) && V4(x) !in guarded
  {
    hide In, NetworkOf, Overlay, Overlaps;
    if route.Net4? {
      var net := NetworkOf(route.a, route.len);
      OverlapsExactly(net, Overlay());
      forall x: Addr ensures In(x, Overlay()) <==> 0x6440_0000 <= x <= 0x647F_FFFF { OverlayRange(x); }
    }
  }

  method CheckRoute(route: RouteText, coord: Option<Text>, endpointIps: seq<Text>) returns (safe: bool)
    ensures safe == RouteIsSafe(route, Guarded(coord, endpointIps))
  {
    hide In, Overlaps, NetworkOf;
    if !route.Net4? { return false; }
    var net := NetworkOf(route.a, route.len);
    if Overlaps(net, Overlay()) { return false; }
    var ips := Guarded(coord, endpointIps);
    for i := 0 to |ips|
      invariant forall k :: 0 <= k < i && ips[k].V4? ==> !In(ips[k].a, net)
    {
      if ips[i].V4? && In(ips[i].a, net) { return false; }
    }
    safe := true;
  }

  /** The safe routes of one peer, in the order it lists them. */
  function PeerEntries(p: Peer, n: nat, guarded: seq<Text>): seq<Entry>
    requires n <= |p.routes|
  {
    if n == 0 then []
    else
      var before := PeerEntries(p, n - 1, guarded);
      var r := p.routes[n - 1];
      if RouteIsSafe(r, guarded) then before + [Entry(NetworkOf(r.a, r.len), p.key)] else before
  }

  /** Every safe route, in map order. */
  function Accepted(peers: seq<Peer>, guarded: seq<Text>): seq<Entry> {
    if peers == [] then []
    else
      var last := peers[|peers| - 1];
      Accepted(peers[..|peers| - 1], guarded) + PeerEntries(last, |last.routes|, guarded)
  }

  /** `sort(key=prefixlen, reverse=True)`, which keeps ties in order. */
  function Insert(t: seq<Entry>, x: Entry): seq<Entry> {
    if t == [] then [x]
    else if t[0].net.len < x.net.len then [x] + t
    else [t[0]] + Insert(t[1..], x)
  }

  function StableSort(s: seq<Entry>): seq<Entry> {
    if s == [] then [] else Insert(StableSort(s[..|s| - 1]), s[|s| - 1])
  }

  function Table(peers: seq<Peer>, coord: Option<Text>): seq<Entry> {
    StableSort(Accepted(peers, Guarded(coord, EndpointIps(peers))))
  }

  method BuildRouteTable(peers: seq<Peer>, coord: Option<Text>) returns (table: seq<Entry>)
    ensures table == Table(peers, coord)
  {
    hide RouteIsSafe, StableSort, NetworkOf;
    var endpointIps := [];
    for i := 0 to |peers|
      invariant endpointIps == EndpointIps(peers[..i])
    {
      assert peers[..i + 1][..i] == peers[..i];
      endpointIps := endpointIps + peers[i].endpoints;
    }
    assert peers[..|peers|] == peers;
    ghost var guarded := Guarded(coord, endpointIps);
    table := [];
    for i := 0 to |peers|
      invariant table == Accepted(peers[..i], guarded)
    {
      var p := peers[i];
      ghost var before := table;
      for j := 0 to |p.routes|
        invariant table == before + PeerEntries(p, j, guarded)
      {
        var safe := CheckRoute(p.routes[j], coord, endpointIps);
        if safe {
          RouteKind(p.routes[j], guarded);
          table := table + [Entry(NetworkOf(p.routes[j].a, p.routes[j].len), p.key)];
        }
      }
      assert peers[..i + 1][..i] == peers[..i];
    }
    table := StableSort(table);
  }

  lemma RouteKind(r: RouteText, guarded: seq<Text>)
    ensures RouteIsSafe(r, guarded) ==> r.Net4?
  {
  }

  // ----- longest prefix -----

  function First(t: seq<Entry>, a: Addr): (e: Option<Entry>)
    ensures e.Some? ==> In(a, e.value.net)
  {
    if t == [] then None else if In(a, t[0].net) then Some(t[0]) else First(t[1..], a)
  }

  method MatchRoute(table: seq<Entry>, dst: Text) returns (r: Option<Key>)
    ensures r == Matched(table, dst)
  {
    hide In;
    if !dst.V4? { return None; }
    for i := 0 to |table|
      invariant First(table, dst.a) == First(table[i..], dst.a)
    {
      assert table[i..][1..] == table[i + 1..];
      if In(dst.a, table[i].net) { return Some(table[i].key); }
    }
    r := None;
  }

  function Matched(table: seq<Entry>, dst: Text): Option<Key> {
    if !dst.V4? then None
    else
      var e := First(table, dst.a);
      if e.Some? then Some(e.value.key) else None
  }

  predicate Descending(t: seq<Entry>) {
    forall i, j :: 0 <= i < j < |t| ==> t[i].net.len >= t[j].net.len
  }

  function OfLength(t: seq<Entry>, len: nat): seq<Entry> {
    if t == [] then []
    else
      var rest := OfLength(t[..|t| - 1], len);
      if t[|t| - 1].net.len == len then rest + [t[|t| - 1]] else rest
  }

  /** Entry i of the unsorted list is the longest match; among equals, the first. */
  ghost predicate LongestMatch(s: seq<Entry>, a: Addr, i: nat) {
    && i < |s| && In(a, s[i].net)
    && (forall j :: 0 <= j < |s| && In(a, s[j].net) ==>
          s[j].net.len < s[i].net.len || (s[j].net.len == s[i].net.len && i <= j))
  }

  lemma {:induction false} InsertSorted(t: seq<Entry>, x: Entry)
    requires Descending(t)
    ensures Descending(Insert(t, x))
    ensures forall e :: e in Insert(t, x) <==> e in t || e == x
  {
    if t != [] && t[0].net.len >= x.net.len {
      InsertSorted(t[1..], x);
      var u := Insert(t[1..], x);
      forall j | 0 <= j < |u| ensures u[j].net.len <= t[0].net.len { assert u[j] in u; }
    }
  }

  lemma {:induction false} InsertKeepsOrder(t: seq<Entry>, x: Entry, len: nat)
    requires Descending(t)
    ensures OfLength(Insert(t, x), len) == OfLength(t, len) + (if x.net.len == len then [x] else [])
  {
    hide OfLength;
    OneOfLength(x, len);
    if t == [] {
      assert [] + OfLength([x], len) == OfLength([x], len);
    } else if t[0].net.len < x.net.len {
      OfLengthConcat([x], t, len);
      if x.net.len == len { NoneThatLong(t, len); }
    } else {
      InsertKeepsOrder(t[1..], x, len);
      OfLengthConcat([t[0]], Insert(t[1..], x), len);
      OfLengthConcat([t[0]], t[1..], len);
      assert [t[0]] + t[1..] == t;
    }
  }

  lemma OneOfLength(x: Entry, len: nat)
    ensures OfLength([x], len) == (if x.net.len == len then [x] else []) && OfLength([], len) == []
  {
    assert [x][..0] == [];
  }

  lemma {:induction false} NoneThatLong(t: seq<Entry>, len: nat)
    requires forall i :: 0 <= i < |t| ==> t[i].net.len < len
    ensures OfLength(t, len) == []
  {
    if t != [] { NoneThatLong(t[..|t| - 1], len); }
  }

  lemma {:induction false} OfLengthConcat(s: seq<Entry>, t: seq<Entry>, len: nat)
    ensures OfLength(s + t, len) == OfLength(s, len) + OfLength(t, len)
  {
    if t == [] {
      assert s + t == s;
    } else {
      assert (s + t)[..|s + t| - 1] == s + t[..|t| - 1];
      OfLengthConcat(s, t[..|t| - 1], len);
    }
  }

  /** The table is the accepted routes, longest prefix first, ties in map order. */
  lemma {:induction false} StableSortIsStable(s: seq<Entry>)
    ensures Descending(StableSort(s))
    ensures forall e :: e in StableSort(s) <==> e in s
    ensures forall len: nat :: OfLength(StableSort(s), len) == OfLength(s, len)
  {
    if s != [] {
      var t, x := s[..|s| - 1], s[|s| - 1];
      StableSortIsStable(t);
      InsertSorted(StableSort(t), x);
      assert s == t + [x];
      forall len: nat ensures OfLength(StableSort(s), len) == OfLength(s, len) {
        InsertKeepsOrder(StableSort(t), x, len);
      }
    }
  }

  lemma {:induction false} FirstIsIn(t: seq<Entry>, a: Addr)
    ensures First(t, a).Some? ==> First(t, a).value in t
    ensures First(t, a).None? <==> forall e :: e in t ==> !In(a, e.net)
  {
    hide In;
    if t != [] {
      FirstIsIn(t[1..], a);
      assert t == [t[0]] + t[1..];
    }
  }

  lemma {:induction false} FirstOfInsert(t: seq<Entry>, x: Entry, a: Addr)
    requires Descending(t)
    ensures First(Insert(t, x), a) ==
            var f := First(t, a);
            if In(a, x.net) && (f.None? || f.value.net.len < x.net.len) then Some(x) else f
  {
    hide In;
    if t == [] {
      assert First([x][1..], a) == None;
    } else if t[0].net.len < x.net.len {
      FirstIsIn(t, a);
      assert ([x] + t)[1..] == t;
    } else {
      FirstOfInsert(t[1..], x, a);
      FirstIsIn(t[1..], a);
      assert Insert(t, x)[1..] == Insert(t[1..], x);
    }
  }

  /** First match in the sorted table is the longest-prefix match over the accepted routes. */
  lemma {:induction false} FirstIsLongest(s: seq<Entry>, a: Addr) returns (i: nat)
    ensures First(StableSort(s), a).None? <==> (forall j :: 0 <= j < |s| ==> !In(a, s[j].net))
    ensures First(StableSort(s), a).Some? ==> LongestMatch(s, a, i) && First(StableSort(s), a).value == s[i]
  {
    hide In, Descending, OfLength, Insert;
    i := 0;
    if s != [] {
      var t, x := s[..|s| - 1], s[|s| - 1];
      i := FirstIsLongest(t, a);
      StableSortIsStable(t);
      FirstOfInsert(StableSort(t), x, a);
      var f := First(StableSort(t), a);
      if In(a, x.net) && (f.None? || f.value.net.len < x.net.len) { i := |s| - 1; }
    }
  }

  // ----- no route pulls the mesh's own transport into the tunnel -----

  lemma {:induction false} PeerEntriesSafe(p: Peer, n: nat, guarded: seq<Text>, e: Entry)
    requires n <= |p.routes| && e in PeerEntries(p, n, guarded)
    ensures e.key == p.key
    ensures exists j :: 0 <= j < n && p.routes[j].Net4? && RouteIsSafe(p.routes[j], guarded) && e.net == NetworkOf(p.routes[j].a, p.routes[j].len)
  {
    hide RouteIsSafe, NetworkOf;
    RouteKind(p.routes[n - 1], guarded);
    if e in PeerEntries(p, n - 1, guarded) { PeerEntriesSafe(p, n - 1, guarded, e); }
  }

  lemma {:induction false} AcceptedSafe(peers: seq<Peer>, guarded: seq<Text>, e: Entry) returns (i: nat, j: nat)
    requires e in Accepted(peers, guarded)
    ensures i < |peers| && j < |peers[i].routes| && e.key == peers[i].key
    ensures RouteIsSafe(peers[i].routes[j], guarded)
    ensures e.net == NetworkOf(peers[i].routes[j].a, peers[i].routes[j].len)
  {
    hide RouteIsSafe, NetworkOf, PeerEntries;
    var last := peers[|peers| - 1];
    if e in Accepted(peers[..|peers| - 1], guarded) {
      i, j := AcceptedSafe(peers[..|peers| - 1], guarded, e);
    } else {
      PeerEntriesSafe(last, |last.routes|, guarded, e);
      i := |peers| - 1;
      j :| 0 <= j < |last.routes| && last.routes[j].Net4? && RouteIsSafe(last.routes[j], guarded) && e.net == NetworkOf(last.routes[j].a, last.routes[j].len);
    }
  }

  /** No coordinator address, advertised endpoint or overlay address matches any route. */
  lemma TransportNeverMatches(peers: seq<Peer>, coord: Option<Text>, a: Addr)
    requires V4(a) in Guarded(coord, EndpointIps(peers)) || In(a, Overlay())
    ensures Matched(Table(peers, coord), V4(a)) == None
  {
    hide In, NetworkOf, Overlaps, Accepted, Overlay, EndpointIps, Guarded, StableSort;
    var guarded := Guarded(coord, EndpointIps(peers));
    var s := Accepted(peers, guarded);
    StableSortIsStable(s);
    FirstIsIn(StableSort(s), a);
    forall e | e in s ensures !In(a, e.net) {
      var i, j := AcceptedSafe(peers, guarded, e);
      OverlapsExactly(e.net, Overlay());
    }
  }

  /** A route is accepted exactly when it is a safe one some peer advertises. */
  lemma AcceptedExactly(peers: seq<Peer>, coord: Option<Text>, a: Addr)
    ensures Matched(Table(peers, coord), V4(a)).Some? <==>
            exists i, j :: 0 <= i < |peers| && 0 <= j < |peers[i].routes|
                           && RouteIsSafe(peers[i].routes[j], Guarded(coord, EndpointIps(peers)))
                           && In(a, NetworkOf(peers[i].routes[j].a, peers[i].routes[j].len))
  {
    hide In, NetworkOf, RouteIsSafe, Accepted, EndpointIps, Guarded, StableSort;
    var guarded := Guarded(coord, EndpointIps(peers));
    var s := Accepted(peers, guarded);
    StableSortIsStable(s);
    FirstIsIn(StableSort(s), a);
    if e :| e in s && In(a, e.net) {
      var i, j := AcceptedSafe(peers, guarded, e);
      RouteKind(peers[i].routes[j], guarded);
    }
    forall i, j | 0 <= i < |peers| && 0 <= j < |peers[i].routes| && RouteIsSafe(peers[i].routes[j], guarded)
      ensures peers[i].routes[j].Net4? && Entry(NetworkOf(peers[i].routes[j].a, peers[i].routes[j].len), peers[i].key) in s
    {
      SafeIsAccepted(peers, guarded, i, j);
    }
  }

  lemma {:induction false} SafeIsAccepted(peers: seq<Peer>, guarded: seq<Text>, i: nat, j: nat)
    requires i < |peers| && j < |peers[i].routes| && RouteIsSafe(peers[i].routes[j], guarded)
    ensures peers[i].routes[j].Net4?
    ensures Entry(NetworkOf(peers[i].routes[j].a, peers[i].routes[j].len), peers[i].key) in Accepted(peers, guarded)
  {
    hide RouteIsSafe, NetworkOf, PeerEntries;
    var n := |peers| - 1;
    RouteKind(peers[i].routes[j], guarded);
    if i < n {
      SafeIsAccepted(peers[..n], guarded, i, j);
    } else {
      SafeInPeer(peers[n], |peers[n].routes|, guarded, j);
    }
  }

  lemma {:induction false} SafeInPeer(p: Peer, n: nat, guarded: seq<Text>, j: nat)
    requires j < n <= |p.routes| && RouteIsSafe(p.routes[j], guarded)
    ensures Entry(NetworkOf(p.routes[j].a, p.routes[j].len), p.key) in PeerEntries(p, n, guarded)
  {
    hide RouteIsSafe, NetworkOf;
    RouteKind(p.routes[j], guarded);
    RouteKind(p.routes[n - 1], guarded);
    if j < n - 1 { SafeInPeer(p, n - 1, guarded, j); }
  }

  // ----- the node's lookups -----

  predicate KeysDistinct(peers: seq<Peer>) {
    forall i, j :: 0 <= i < j < |peers| ==> peers[i].key != peers[j].key
  }

  predicate Names(p: Peer, name: Text) { p.hostname == Some(name) || p.ip == Some(name) }

  function ResolveIn(peers: seq<Peer>, name: Text): Option<Key> {
    if peers == [] then None else if Names(peers[0], name) then Some(peers[0].key) else ResolveIn(peers[1..], name)
  }

  function Carrier(peers: seq<Peer>, table: seq<Entry>, exit: Option<Key>, dst: Text): Option<Key> {
    if ResolveIn(peers, dst).Some? then ResolveIn(peers, dst)
    else if Matched(table, dst).Some? then Matched(table, dst)
    else exit
  }

  /** Who is to carry packets for dst, told without the lookups: the first peer on the map that
      owns dst or is named so; otherwise the peer of the longest accepted route that holds it,
      the first advertised among equals; and the exit only when nobody claims dst. */
  ghost predicate ChosenFor(peers: seq<Peer>, routes: seq<Entry>, exit: Option<Key>, dst: Text, r: Option<Key>) {
    if exists i :: 0 <= i < |peers| && Names(peers[i], dst) then
      exists i :: 0 <= i < |peers| && Names(peers[i], dst) && r == Some(peers[i].key)
                  && forall k :: 0 <= k < i ==> !Names(peers[k], dst)
    else if dst.V4? && exists i :: 0 <= i < |routes| && In(dst.a, routes[i].net) then
      exists i: nat :: LongestMatch(routes, dst.a, i) && r == Some(routes[i].key)
    else r == exit
  }

  /** The routes a node lets in: all the safe ones on its map, or none. */
  ghost function LetIn(peers: seq<Peer>, coord: Option<Text>, acceptRoutes: bool): seq<Entry> {
    if acceptRoutes then Accepted(peers, Guarded(coord, EndpointIps(peers))) else []
  }

  lemma CarrierIsChosen(peers: seq<Peer>, routes: seq<Entry>, exit: Option<Key>, dst: Text)
    ensures ChosenFor(peers, routes, exit, dst, Carrier(peers, StableSort(routes), exit, dst))
  {
    hide Names, In, StableSort, LongestMatch;
    var i := ResolveFindsFirst(peers, dst);
    if ResolveIn(peers, dst).None? && dst.V4? {
      var j := FirstIsLongest(routes, dst.a);
      if First(StableSort(routes), dst.a).Some? { MatchHolds(routes, dst.a, j); }
    }
  }

  lemma NothingToSort()
    ensures StableSort([]) == []
  {
  }

  lemma MatchHolds(routes: seq<Entry>, a: Addr, i: nat)
    requires LongestMatch(routes, a, i)
    ensures i < |routes| && In(a, routes[i].net)
  {
  }

  ghost predicate OwnsAddress(peers: seq<Peer>, key: Key, ip: Text) {
    exists i :: 0 <= i < |peers| && peers[i].key == key && peers[i].ip == Some(ip)
  }

  ghost predicate RoutesAddress(table: seq<Entry>, key: Key, ip: Text) {
    ip.V4? && exists i :: 0 <= i < |table| && table[i].key == key && In(ip.a, table[i].net)
  }

  ghost predicate Permitted(peers: seq<Peer>, table: seq<Entry>, exit: Option<Key>, src: Key, ip: Option<Text>) {
    ip.None? || exit == Some(src) || OwnsAddress(peers, src, ip.value) || RoutesAddress(table, src, ip.value)
  }

  lemma {:induction false} ResolveFindsFirst(peers: seq<Peer>, name: Text) returns (i: nat)
    ensures ResolveIn(peers, name).None? ==> forall k :: 0 <= k < |peers| ==> !Names(peers[k], name)
    ensures ResolveIn(peers, name).Some? ==>
              && i < |peers| && peers[i].key == ResolveIn(peers, name).value && Names(peers[i], name)
              && (forall k :: 0 <= k < i ==> !Names(peers[k], name))
  {
    hide Names;
    i := 0;
    if peers != [] && !Names(peers[0], name) {
      var k := ResolveFindsFirst(peers[1..], name);
      i := k + 1;
      if ResolveIn(peers, name).None? {
        forall k | 0 <= k < |peers| ensures !Names(peers[k], name) { if k > 0 { assert peers[1..][k - 1] == peers[k]; } }
      } else {
        forall k' | 0 <= k' < i ensures !Names(peers[k'], name) { if k' > 0 { assert peers[1..][k' - 1] == peers[k']; } }
      }
    }
  }

  /** A name that is somebody's IPv4 address resolves only to a peer allowed to use it. */
  ghost predicate LiteralNamesAreOwn(peers: seq<Peer>, table: seq<Entry>, exit: Option<Key>) {
    forall i :: 0 <= i < |peers| && peers[i].hostname.Some? && peers[i].hostname.value.V4?
                && ResolveIn(peers, peers[i].hostname.value) == Some(peers[i].key) ==>
      Permitted(peers, table, exit, peers[i].key, peers[i].hostname)
  }

  /** Whoever is chosen to carry packets to an address may answer from it — for every
      address, exactly when no address-shaped hostname claims what is not its own. */
  lemma RepliesPermittedExactly(peers: seq<Peer>, table: seq<Entry>, exit: Option<Key>)
    requires KeysDistinct(peers)
    ensures LiteralNamesAreOwn(peers, table, exit) <==>
            forall a: Addr :: Carrier(peers, table, exit, V4(a)).Some? ==>
              Permitted(peers, table, exit, Carrier(peers, table, exit, V4(a)).value, Some(V4(a)))
  {
    hide In;
    if LiteralNamesAreOwn(peers, table, exit) {
      forall a: Addr | Carrier(peers, table, exit, V4(a)).Some?
        ensures Permitted(peers, table, exit, Carrier(peers, table, exit, V4(a)).value, Some(V4(a)))
      {
        CarrierPermitted(peers, table, exit, a);
      }
    } else {
      var i :| 0 <= i < |peers| && peers[i].hostname.Some? && peers[i].hostname.value.V4?
               && ResolveIn(peers, peers[i].hostname.value) == Some(peers[i].key)
               && !Permitted(peers, table, exit, peers[i].key, peers[i].hostname);
      assert Carrier(peers, table, exit, V4(peers[i].hostname.value.a)) == Some(peers[i].key);
    }
  }

  lemma CarrierPermitted(peers: seq<Peer>, table: seq<Entry>, exit: Option<Key>, a: Addr)
    requires LiteralNamesAreOwn(peers, table, exit) && Carrier(peers, table, exit, V4(a)).Some?
    ensures Permitted(peers, table, exit, Carrier(peers, table, exit, V4(a)).value, Some(V4(a)))
  {
    hide In;
    var i := ResolveFindsFirst(peers, V4(a));
    if ResolveIn(peers, V4(a)).None? && Matched(table, V4(a)).Some? {
      FirstIsIn(table, a);
      var k :| 0 <= k < |table| && table[k] == First(table, a).value;
    }
  }

  /** The entries of one peer. */
  function EntriesOf(table: seq<Entry>, key: Key): (own: seq<Entry>)
    ensures forall e :: e in own <==> e in table && e.key == key
  {
    if table == [] then []
    else
      var rest := EntriesOf(table[1..], key);
      assert table == [table[0]] + table[1..];
      if table[0].key == key then [table[0]] + rest else rest
  }

  /** A peer with an ordinary name is believed to be the source of a packet exactly when it is
      the exit, or when this node, if it knew that peer only, would send packets for the address
      to it; a packet without a readable source passes. */
  lemma BelievedExactly(peers: seq<Peer>, table: seq<Entry>, exit: Option<Key>, i: nat, a: Addr)
    requires KeysDistinct(peers) && i < |peers| && (peers[i].hostname.Some? ==> !peers[i].hostname.value.V4?)
    ensures Permitted(peers, table, exit, peers[i].key, Some(V4(a))) <==>
            exit == Some(peers[i].key) || Carrier([peers[i]], EntriesOf(table, peers[i].key), None, V4(a)) == Some(peers[i].key)
    ensures Permitted(peers, table, exit, peers[i].key, None)
  {
    hide In;
    var p, own := peers[i], EntriesOf(table, peers[i].key);
    FirstIsIn(own, a);
    assert ResolveIn([p], V4(a)) == if p.ip == Some(V4(a)) then Some(p.key) else None by { assert [p][1..] == []; }
    if k :| 0 <= k < |table| && table[k].key == p.key && In(a, table[k].net) { assert table[k] in own; }
    if First(own, a).Some? {
      var e := First(own, a).value;
      var k :| 0 <= k < |table| && table[k] == e;
    }
  }

  /** When no hostname looks like an address, the condition always holds. */
  lemma OrdinaryNamesSuffice(peers: seq<Peer>, table: seq<Entry>, exit: Option<Key>, a: Addr)
    requires forall i :: 0 <= i < |peers| && peers[i].hostname.Some? ==> !peers[i].hostname.value.V4?
    requires Carrier(peers, table, exit, V4(a)).Some?
    ensures Permitted(peers, table, exit, Carrier(peers, table, exit, V4(a)).value, Some(V4(a)))
  {
    CarrierPermitted(peers, table, exit, a);
  }

  /** And it can fail: a peer named like another network's address gets packets it may not answer. */
  lemma AddressShapedNameFails()
    ensures var peers := [Peer(1, Some(V4(8)), Some(V4(0x6440_0002)), false, [], [])];
            && Carrier(peers, [], None, V4(8)) == Some(1)
            && !Permitted(peers, [], None, 1, Some(V4(8)))
  {
    var peers := [Peer(1, Some(V4(8)), Some(V4(0x6440_0002)), false, [], [])];
    assert Names(peers[0], V4(8));
  }

  datatype Conn = Conn(direct: bool, endpoint: Option<Text>)

  ghost predicate Advertised(peers: seq<Peer>, key: Key, x: Text) {
    exists i :: 0 <= i < |peers| && peers[i].key == key && x in peers[i].endpoints && x != Word("")
  }

  /** Address x carries transport to peer k. */
  ghost predicate Carries(peers: seq<Peer>, conns: map<Key, Conn>, k: Key, x: Text) {
    Advertised(peers, k, x) || (k in conns && conns[k].direct && conns[k].endpoint == Some(x))
  }

  /** Address x must keep bypassing a full tunnel. */
  ghost predicate MustBypass(coord: Option<Text>, exit: Option<Key>, peers: seq<Peer>, conns: map<Key, Conn>, x: Text) {
    coord == Some(x) || exists k :: (k in conns || exit == Some(k)) && Carries(peers, conns, k, x)
  }

  /** These are the coordinator's address, the endpoints advertised by peers with a connection
      and by the exit, and the far ends of direct paths. */
  lemma BypassExactly(coord: Option<Text>, exit: Option<Key>, peers: seq<Peer>, conns: map<Key, Conn>, x: Text)
    ensures MustBypass(coord, exit, peers, conns, x) <==>
            || coord == Some(x)
            || (x != Word("") && exists i :: 0 <= i < |peers| && (peers[i].key in conns || exit == Some(peers[i].key)) && x in peers[i].endpoints)
            || (exists k :: k in conns && conns[k].direct && conns[k].endpoint == Some(x))
  {
    if i :| 0 <= i < |peers| && (peers[i].key in conns || exit == Some(peers[i].key)) && x in peers[i].endpoints && x != Word("") {
      assert Advertised(peers, peers[i].key, x);
      assert Carries(peers, conns, peers[i].key, x);
    }
    if k :| k in conns && conns[k].direct && conns[k].endpoint == Some(x) { assert Carries(peers, conns, k, x); }
  }

  /** The addresses collected for the peers done so far. */
  ghost predicate Gathered(peers: seq<Peer>, conns: map<Key, Conn>, start: set<Text>, done: set<Key>, ips: set<Text>) {
    forall x :: x in ips <==> x in start || exists k :: k in done && Carries(peers, conns, k, x)
  }

  ghost predicate IsTransport(peers: seq<Peer>, conns: map<Key, Conn>, k: Key, ips: set<Text>) {
    forall x :: x in ips <==> Carries(peers, conns, k, x)
  }

  /** One key goes from what is left to what is done. */
  lemma MoveOne(all: set<Key>, done: set<Key>, left: set<Key>, k: Key)
    requires done + left == all && k in left
    ensures (done + {k}) + (left - {k}) == all && |left - {k}| < |left|
  {
    assert left == (left - {k}) + {k};
  }

  lemma NothingGathered(peers: seq<Peer>, conns: map<Key, Conn>, start: set<Text>)
    ensures Gathered(peers, conns, start, {}, start)
  {
    hide Carries;
  }

  lemma GatherOne(peers: seq<Peer>, conns: map<Key, Conn>, start: set<Text>, done: set<Key>, ips: set<Text>, k: Key, more: set<Text>)
    requires Gathered(peers, conns, start, done, ips) && IsTransport(peers, conns, k, more)
    ensures Gathered(peers, conns, start, done + {k}, ips + more)
  {
    hide Carries;
    forall x ensures x in ips + more <==> x in start || exists j :: j in done + {k} && Carries(peers, conns, j, x) {
      if x in more { assert k in done + {k} && Carries(peers, conns, k, x); }
      if j :| j in done && Carries(peers, conns, j, x) { assert j in done + {k}; }
    }
  }

  lemma GatheredAll(coord: Option<Text>, exit: Option<Key>, peers: seq<Peer>, conns: map<Key, Conn>, ips: set<Text>)
    requires Gathered(peers, conns, if coord.Some? then {coord.value} else {}, conns.Keys + (if exit.Some? then {exit.value} else {}), ips)
    ensures forall x :: x in ips <==> MustBypass(coord, exit, peers, conns, x)
  {
    hide Carries;
    var all := conns.Keys + (if exit.Some? then {exit.value} else {});
    assert forall k :: k in all <==> k in conns || exit == Some(k);
  }

  class Router {
    const acceptRoutes: bool
    const exitName: Option<Text>
    const coord: Option<Text>
    var peers: seq<Peer>              // the peer map, in insertion order
    var routeTable: seq<Entry>
    var exitNode: Option<Key>

    ghost predicate Valid()
      reads this
    {
      && KeysDistinct(peers)
      && routeTable == (if acceptRoutes then Table(peers, coord) else [])
      && (exitNode.Some? ==>
            exitName.Some? && exists i :: 0 <= i < |peers| && peers[i].key == exitNode.value && peers[i].exit && Names(peers[i], exitName.value))
    }

    constructor (acceptRoutes: bool, exitName: Option<Text>, coord: Option<Text>)
      ensures Valid() && peers == [] && this.acceptRoutes == acceptRoutes && this.exitName == exitName && this.coord == coord
    {
      this.acceptRoutes, this.exitName, this.coord := acceptRoutes, exitName, coord;
      peers, routeTable, exitNode := [], [], None;
    }

    method Resolve(name: Text) returns (r: Option<Key>)
      ensures r == ResolveIn(peers, name)
    {
      for i := 0 to |peers|
        invariant ResolveIn(peers, name) == ResolveIn(peers[i..], name)
      {
        assert peers[i..][1..] == peers[i + 1..];
        if Names(peers[i], name) { return Some(peers[i].key); }
      }
      r := None;
    }

    method RouteFor(dst: Text) returns (r: Option<Key>)
      ensures r == Carrier(peers, routeTable, exitNode, dst)
      ensures Valid() ==> ChosenFor(peers, LetIn(peers, coord, acceptRoutes), exitNode, dst, r)
    {
      hide ChosenFor, StableSort, Names, In;
      if Valid() {
        assert StableSort([]) == [] by { NothingToSort(); }
        CarrierIsChosen(peers, LetIn(peers, coord, acceptRoutes), exitNode, dst);
      }
      r := Resolve(dst);
      if r.Some? { return; }
      r := MatchRoute(routeTable, dst);
      if r.Some? { return; }
      r := exitNode;
    }

    method SrcPermitted(src: Key, ip: Option<Text>) returns (ok: bool)
      requires KeysDistinct(peers)
      ensures ok == Permitted(peers, routeTable, exitNode, src, ip)
    {
      hide In;
      if ip.None? || exitNode == Some(src) { return true; }
      var info := Lookup(src);
      if info.Some? && info.value.ip == ip { return true; }
      if !ip.value.V4? { return false; }
      for i := 0 to |routeTable|
        invariant forall k :: 0 <= k < i ==> !(routeTable[k].key == src && In(ip.value.a, routeTable[k].net))
      {
        if routeTable[i].key == src && In(ip.value.a, routeTable[i].net) { return true; }
      }
      ok := false;
    }

    /** `peers.get(key)`. */
    method Lookup(key: Key) returns (r: Option<Peer>)
      requires KeysDistinct(peers)
      ensures r.Some? ==> r.value in peers && r.value.key == key
      ensures forall i :: 0 <= i < |peers| && peers[i].key == key ==> r == Some(peers[i])
    {
      for i := 0 to |peers|
        invariant forall k :: 0 <= k < i ==> peers[k].key != key
      {
        if peers[i].key == key { return Some(peers[i]); }
      }
      r := None;
    }

    /** A new peer map arrives: the table is rebuilt from it, the exit node looked up again. */
    method OnMap(entries: seq<Peer>)
      requires Valid()
      modifies this
      ensures Valid() && peers == DictOf(entries)
      ensures exitNode.Some? <==> exitName.Some? && ExitIn(peers, exitName.value)
      ensures exitNode.Some? ==> ChosenFor(peers, [], None, exitName.value, exitNode)
    {
      hide Table;
      DictKeysDistinct(entries);
      peers := DictOf(entries);
      if acceptRoutes { routeTable := BuildRouteTable(peers, coord); }
      exitNode := None;
      if exitName.Some? {
        var k := Resolve(exitName.value);
        ghost var i := ResolveFindsFirst(peers, exitName.value);
        if k.Some? {
          var info := Lookup(k.value);
          if info.value.exit { exitNode := k; }
        }
      }
    }

    /** The addresses that must keep bypassing a full tunnel: the coordinator, and for every
        peer with a connection (and the exit) its advertised endpoints and the endpoint in use. */
    method TransportIps(conns: map<Key, Conn>) returns (ips: set<Text>)
      requires KeysDistinct(peers)
      ensures forall x :: x in ips <==> MustBypass(coord, exitNode, peers, conns, x)
    {
      hide KeysDistinct, Carries, MustBypass, Gathered;
      var start := if coord.Some? then {coord.value} else {};
      var relevant := conns.Keys + (if exitNode.Some? then {exitNode.value} else {});
      ips := Collect(relevant, conns, start);
      GatheredAll(coord, exitNode, peers, conns, ips);
    }

    method Collect(relevant: set<Key>, conns: map<Key, Conn>, start: set<Text>) returns (ips: set<Text>)
      requires KeysDistinct(peers)
      ensures Gathered(peers, conns, start, relevant, ips)
    {
      hide KeysDistinct, Gathered, IsTransport;
      var todo := relevant;
      ips := start;
      ghost var done := {};
      NothingGathered(peers, conns, start);
      while todo != {}
        invariant done + todo == relevant && Gathered(peers, conns, start, done, ips)
        decreases |todo|
      {
        var k :| k in todo;
        var more := PeerTransport(k, conns);
        GatherOne(peers, conns, start, done, ips, k, more);
        MoveOne(relevant, done, todo, k);
        todo, done, ips := todo - {k}, done + {k}, ips + more;
      }
      assert done == relevant;
    }

    method PeerTransport(k: Key, conns: map<Key, Conn>) returns (ips: set<Text>)
      requires KeysDistinct(peers)
      ensures IsTransport(peers, conns, k, ips)
    {
      var info := Lookup(k);
      ips := if info.Some? then set x | x in info.value.endpoints && x != Word("") else {};
      assert forall x :: x in ips <==> Advertised(peers, k, x);
      if k in conns && conns[k].direct && conns[k].endpoint.Some? { ips := ips + {conns[k].endpoint.value}; }
    }
  }

  /** The dictionary a map message builds: a repeated key keeps its first place, takes the last value. */
  function DictOf(entries: seq<Peer>): seq<Peer> {
    if entries == [] then [] else SetPeer(DictOf(entries[..|entries| - 1]), entries[|entries| - 1])
  }

  function SetPeer(d: seq<Peer>, p: Peer): (r: seq<Peer>) {
    if d == [] then [p] else if d[0].key == p.key then [p] + d[1..] else [d[0]] + SetPeer(d[1..], p)
  }

  lemma {:induction false} SetPeerKeys(d: seq<Peer>, p: Peer)
    requires KeysDistinct(d)
    ensures KeysDistinct(SetPeer(d, p))
    ensures forall q :: q in SetPeer(d, p) <==> q == p || (q in d && q.key != p.key)
  {
    if d != [] {
      assert d == [d[0]] + d[1..];
      if d[0].key != p.key {
        SetPeerKeys(d[1..], p);
        var u := SetPeer(d[1..], p);
        forall j | 0 <= j < |u| ensures u[j].key != d[0].key { assert u[j] in u; }
      }
    }
  }

  lemma {:induction false} DictKeysDistinct(entries: seq<Peer>)
    ensures KeysDistinct(DictOf(entries))
  {
    if entries != [] {
      DictKeysDistinct(entries[..|entries| - 1]);
      SetPeerKeys(DictOf(entries[..|entries| - 1]), entries[|entries| - 1]);
    }
  }

  function KeysOf(d: seq<Peer>): (r: seq<Key>)
    ensures |r| == |d|
  {
    seq(|d|, i requires 0 <= i < |d| => d[i].key)
  }

  /** Setting a peer moves no other: a new key goes to the end. */
  lemma {:induction false} SetPeerPlaces(d: seq<Peer>, p: Peer)
    ensures KeysOf(SetPeer(d, p)) == if p.key in KeysOf(d) then KeysOf(d) else KeysOf(d) + [p.key]
  {
    if d != [] && d[0].key != p.key {
      SetPeerPlaces(d[1..], p);
      assert KeysOf(d) == [d[0].key] + KeysOf(d[1..]);
      assert KeysOf(SetPeer(d, p)) == [d[0].key] + KeysOf(SetPeer(d[1..], p));
    } else if d != [] {
      assert KeysOf(d)[0] == p.key;
    }
  }

  /** Entry i is the last for its key. */
  ghost predicate LastFor(entries: seq<Peer>, i: nat) {
    i < |entries| && forall j :: i < j < |entries| ==> entries[j].key != entries[i].key
  }

  ghost predicate IsLast(entries: seq<Peer>, p: Peer) { exists i: nat :: LastFor(entries, i) && entries[i] == p }

  /** Exactly the last entry of every key is on the map. */
  lemma {:induction false} DictHoldsLast(entries: seq<Peer>, p: Peer)
    ensures p in DictOf(entries) <==> IsLast(entries, p)
  {
    hide IsLast, KeysDistinct, SetPeer;
    if entries == [] {
      LastOf(entries, p);
    } else {
      var n := |entries| - 1;
      DictHoldsLast(entries[..n], p);
      DictKeysDistinct(entries[..n]);
      SetPeerKeys(DictOf(entries[..n]), entries[n]);
      LastOf(entries, p);
    }
  }

  lemma LastOf(entries: seq<Peer>, p: Peer)
    ensures entries == [] ==> !IsLast(entries, p)
    ensures entries != [] ==>
              var n := |entries| - 1;
              IsLast(entries, p) <==> p == entries[n] || (IsLast(entries[..n], p) && p.key != entries[n].key)
  {
    if entries != [] {
      var n := |entries| - 1;
      hide LastFor;
      LastSnoc(entries);
      if p == entries[n] { assert LastFor(entries, n); }
      if i: nat :| LastFor(entries, i) && entries[i] == p { if i < n { assert entries[..n][i] == p; } }
      if i: nat :| LastFor(entries[..n], i) && entries[..n][i] == p && p.key != entries[n].key { assert LastFor(entries, i); }
    }
  }

  lemma LastSnoc(entries: seq<Peer>)
    requires entries != []
    ensures var n := |entries| - 1;
            && LastFor(entries, n)
            && (forall i: nat :: LastFor(entries, i) ==> i < |entries|)
            && (forall i: nat :: LastFor(entries[..n], i) ==> i < n)
            && (forall i: nat :: i < n ==> (LastFor(entries, i) <==> LastFor(entries[..n], i) && entries[i].key != entries[n].key))
  {
  }

  ghost predicate ExitIn(peers: seq<Peer>, name: Text) {
    exists i :: 0 <= i < |peers| && peers[i].exit && ResolveIn(peers, name) == Some(peers[i].key)
  }

  /** Of the addresses a full tunnel must bypass, those the map knows never match a route. */
  lemma KnownTransportNeverMatches(peers: seq<Peer>, coord: Option<Text>, key: Key, a: Addr)
    requires coord == Some(V4(a)) || Advertised(peers, key, V4(a))
    ensures Matched(Table(peers, coord), V4(a)) == None
  {
    hide Table, Matched;
    if coord != Some(V4(a)) {
      var i :| 0 <= i < |peers| && peers[i].key == key && V4(a) in peers[i].endpoints;
      EndpointListed(peers, i, V4(a));
    }
    TransportNeverMatches(peers, coord, a);
  }

  lemma {:induction false} EndpointListed(peers: seq<Peer>, i: nat, x: Text)
    requires i < |peers| && x in peers[i].endpoints
    ensures x in EndpointIps(peers)
  {
    if i < |peers| - 1 { EndpointListed(peers[..|peers| - 1], i, x); }
  }

  lemma TenRange(a: Addr)
    ensures In(a, NetworkOf(0x0A00_0000, 8)) <==> 0x0A00_0000 <= a < 0x0B00_0000
  {
    hide Bits.And, Bits.Shr, Mask, In;
    Bits.Pow2Add(8, 16);
    Bits.Pow2Add(8, 8);
    assert Bits.Pow2(8) == 256;
    AlignedRange(10, 0x100_0000, 0x0A00_0000, 8, a);
  }

  /** A learned endpoint the map does not list can match: the guard is a snapshot of the map.
      The address of the direct path to peer 1 must bypass the tunnel, and an accepted route
      of the same peer covers it. */
  lemma LearnedEndpointCanMatch()
    ensures var peers := [Peer(1, None, None, false, [], [Net4(0x0A00_0000, 8)])];
            var conns := map[1 := Conn(true, Some(V4(0x0A00_0001)))];
            && MustBypass(None, None, peers, conns, V4(0x0A00_0001))
            && Matched(Table(peers, None), V4(0x0A00_0001)) == Some(1)
  {
    hide In, Overlaps, NetworkOf, Accepted, StableSort, Overlay;
    assert Carries([Peer(1, None, None, false, [], [Net4(0x0A00_0000, 8)])], map[1 := Conn(true, Some(V4(0x0A00_0001)))], 1, V4(0x0A00_0001));
    var peers := [Peer(1, None, None, false, [], [Net4(0x0A00_0000, 8)])];
    var net := NetworkOf(0x0A00_0000, 8);
    forall a: Addr ensures !(In(a, net) && In(a, Overlay())) {
      OverlayRange(a);
      TenRange(a);
    }
    OverlapsExactly(net, Overlay());
    assert EndpointIps(peers) == [] by { assert peers[..0] == []; }
    assert RouteIsSafe(peers[0].routes[0], Guarded(None, []));
    SafeIsAccepted(peers, Guarded(None, []), 0, 0);
    TenRange(0x0A00_0001);
    AcceptedExactly(peers, None, 0x0A00_0001);
    var i := FirstIsLongest(Accepted(peers, Guarded(None, [])), 0x0A00_0001);
    var x, y := AcceptedSafe(peers, Guarded(None, []), Accepted(peers, Guarded(None, []))[i]);
  }
}
