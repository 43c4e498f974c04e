/** WireGuard: reconciling the interface with the peer table, and which AllowedIPs a peer may have. */
module WireGuard {
  import opened Wrappers
  import IpAlloc

  // ---- SyncPeers -------------------------------------------------------------------------------------------

  datatype Peer = Peer(key: string, enabled: bool, allowedIPs: string, endpoint: Option<string>, psk: Option<string>)

  /** What the interface holds for a key. */
  datatype Config = Config(allowedIPs: string, endpoint: Option<string>, psk: Option<string>)

  type Interface = map<string, Config>

  /** `wg set`: the allowed IPs are replaced; an endpoint or a preshared key that is not given stays. */
  function Merged(iface: Interface, p: Peer): Config {
    Config(p.allowedIPs,
      if p.endpoint.None? && p.key in iface then iface[p.key].endpoint else p.endpoint,
      if p.psk.None? && p.key in iface then iface[p.key].psk else p.psk)
  }

  /** A peer's settings on the interface are the table's, but for an endpoint or key that the table leaves open: that is
      what it was. */
  predicate Follows(was: Interface, p: Peer, c: Config) {
    && c.allowedIPs == p.allowedIPs
    && (p.endpoint.Some? ==> c.endpoint == p.endpoint)
    && (p.psk.Some? ==> c.psk == p.psk)
    && (p.endpoint.None? ==> c.endpoint == if p.key in was then was[p.key].endpoint else None)
    && (p.psk.None? ==> c.psk == if p.key in was then was[p.key].psk else None)
  }

  /** The public key is unique in the table. */
  ghost predicate UniqueKeys(peers: seq<Peer>) {
    forall i, j :: 0 <= i < j < |peers| ==> peers[i].key != peers[j].key
  }

  ghost predicate Enabled(peers: seq<Peer>, key: string) {
    exists i :: 0 <= i < |peers| && peers[i].enabled && peers[i].key == key
  }

  /** One pass, when the attempts for the keys in `applyDown` and `removeDown` fail. */
  ghost predicate Synced(was: Interface, peers: seq<Peer>, applyDown: set<string>, removeDown: set<string>, now: Interface) {
    && (forall k: string :: k in now <==>
        if Enabled(peers, k) then k in was || k !in applyDown else k in was && k in removeDown)
    && (forall i :: 0 <= i < |peers| && peers[i].enabled && peers[i].key !in applyDown ==>
        peers[i].key in now && now[peers[i].key] == Merged(was, peers[i]))
    && (forall k :: k in now && (!Enabled(peers, k) || k in applyDown) ==> k in was && now[k] == was[k])
  }

  class Service {
    var iface: Interface

    constructor (iface: Interface)
      ensures this.iface == iface
    {
      this.iface := iface;
    }

    method ApplyPeer(p: Peer, up: bool) returns (ok: bool)
      modifies this
      ensures ok == up && iface == if up then old(iface)[p.key := Merged(old(iface), p)] else old(iface)
      ensures up ==> p.key in iface && Follows(old(iface), p, iface[p.key])
    {
      if up { iface := iface[p.key := Merged(iface, p)]; }
      ok := up;
    }

    method RemovePeer(key: string, up: bool) returns (ok: bool)
      modifies this
      ensures ok == up && iface == if up then old(iface) - {key} else old(iface)
    {
      if up { iface := iface - {key}; }
      ok := up;
    }

    /** The first loop: collect the enabled keys and apply each one. */
    method ApplyEnabled(peers: seq<Peer>, applyDown: set<string>) returns (enabledKeys: set<string>)
      requires UniqueKeys(peers)
      modifies this
      ensures forall k :: k in enabledKeys <==> Enabled(peers, k)
      ensures Applied(old(iface), peers, enabledKeys, applyDown, iface)
    {
      enabledKeys := {};
      ghost var was := iface;
      for i := 0 to |peers|
        invariant forall k :: k in enabledKeys <==> Enabled(peers[..i], k)
        invariant Applied(was, peers[..i], enabledKeys, applyDown, iface)
      {
        NextPeer(peers, i);
        AppliedStep(was, peers, i, enabledKeys, applyDown, iface);
        if peers[i].enabled {
          enabledKeys := enabledKeys + {peers[i].key};
          var _ := ApplyPeer(peers[i], peers[i].key !in applyDown);
        }
      }
      assert peers[..|peers|] == peers;
    }

    /** The second loop: remove what was there and is not enabled. */
    method RemoveOthers(current: set<string>, enabledKeys: set<string>, removeDown: set<string>)
      modifies this
      ensures forall k: string :: k in iface <==> k in old(iface) && (k in enabledKeys || k in removeDown || k !in current)
      ensures forall k :: k in iface ==> iface[k] == old(iface)[k]
    {
      var rest := current;
      while rest != {}
        invariant rest <= current
        invariant forall k: string :: k in iface <==> k in old(iface) && (k in enabledKeys || k in removeDown || k in rest || k !in current)
        invariant forall k :: k in iface ==> iface[k] == old(iface)[k]
        decreases |rest|
      {
        var key :| key in rest;
        rest := rest - {key};
        if key !in enabledKeys {
          var _ := RemovePeer(key, key !in removeDown);
        }
      }
    }

    /** A table that cannot be listed is an error; an interface that cannot be read skips the pass. */
    method SyncPeers(peers: seq<Peer>, listUp: bool, showUp: bool, applyDown: set<string>, removeDown: set<string>) returns (ok: bool)
      requires UniqueKeys(peers)
      modifies this
      ensures ok == listUp
      ensures if listUp && showUp then Synced(old(iface), peers, applyDown, removeDown, iface) else iface == old(iface)
    {
      if !listUp { return false; }
      if !showUp { return true; }
      var current := iface.Keys;
      var enabledKeys := ApplyEnabled(peers, applyDown);
      RemoveOthers(current, enabledKeys, removeDown);
      ok := true;
    }
  }

  /** Where the first loop stands after `peers`. */
  ghost predicate Applied(was: Interface, peers: seq<Peer>, enabledKeys: set<string>, applyDown: set<string>, now: Interface) {
    && (forall k: string :: k in now <==> k in was || (k in enabledKeys && k !in applyDown))
    && (forall j :: 0 <= j < |peers| && peers[j].enabled && peers[j].key !in applyDown ==>
        peers[j].key in now && now[peers[j].key] == Merged(was, peers[j]))
    && (forall k :: k in now && (k !in enabledKeys || k in applyDown) ==> k in was && now[k] == was[k])
  }

  lemma AppliedStep(was: Interface, peers: seq<Peer>, i: nat, enabledKeys: set<string>, applyDown: set<string>, now: Interface)
    requires i < |peers| && UniqueKeys(peers) && peers[i].key !in enabledKeys
    requires Applied(was, peers[..i], enabledKeys, applyDown, now)
    ensures !peers[i].enabled ==> Applied(was, peers[..i + 1], enabledKeys, applyDown, now)
    ensures peers[i].enabled ==>
      var now' := if peers[i].key in applyDown then now else now[peers[i].key := Merged(now, peers[i])];
      Applied(was, peers[..i + 1], enabledKeys + {peers[i].key}, applyDown, now')
  {
    var key := peers[i].key;
    assert key in now <==> key in was;
    assert key in now ==> now[key] == was[key];
    assert forall j :: 0 <= j < i ==> peers[..i][j] == peers[j] && peers[j].key != key;
  }

  lemma NextPeer(peers: seq<Peer>, i: nat)
    requires UniqueKeys(peers) && i < |peers|
    ensures forall k :: Enabled(peers[..i + 1], k) <==> Enabled(peers[..i], k) || (peers[i].enabled && peers[i].key == k)
    ensures !Enabled(peers[..i], peers[i].key)
  {
    forall k ensures Enabled(peers[..i + 1], k) <==> Enabled(peers[..i], k) || (peers[i].enabled && peers[i].key == k) {
      if Enabled(peers[..i], k) {
        var j :| 0 <= j < i && peers[..i][j].enabled && peers[..i][j].key == k;
        assert peers[..i + 1][j] == peers[..i][j];
      }
      if peers[i].enabled && peers[i].key == k { assert peers[..i + 1][i] == peers[i]; }
      if Enabled(peers[..i + 1], k) {
        var j :| 0 <= j < i + 1 && peers[..i + 1][j].enabled && peers[..i + 1][j].key == k;
        if j < i { assert peers[..i][j] == peers[..i + 1][j]; }
      }
    }
  }

  /** After a pass every key on the interface is enabled or its removal failed, and every enabled key is there or
      its apply failed. */
  lemma SyncConverges(was: Interface, peers: seq<Peer>, applyDown: set<string>, removeDown: set<string>, now: Interface)
    requires Synced(was, peers, applyDown, removeDown, now)
    ensures forall k :: k in now ==> Enabled(peers, k) || k in removeDown
    ensures forall k :: Enabled(peers, k) ==> k in now || k in applyDown
    ensures applyDown == {} && removeDown == {} ==> forall k: string :: k in now <==> Enabled(peers, k)
  {
  }

  /** A second pass without faults changes nothing, configurations included. */
  lemma SyncTwice(was: Interface, peers: seq<Peer>, once: Interface, twice: Interface)
    requires UniqueKeys(peers)
    requires Synced(was, peers, {}, {}, once) && Synced(once, peers, {}, {}, twice)
    ensures twice == once
  {
    forall k | k in once ensures k in twice && twice[k] == once[k] {
      assert Enabled(peers, k);
      var i :| 0 <= i < |peers| && peers[i].enabled && peers[i].key == k;
      assert once[peers[i].key] == Merged(was, peers[i]) && twice[peers[i].key] == Merged(once, peers[i]);
    }
    assert forall k: string :: k in twice <==> k in once;
  }

  /** After a pass every enabled peer whose apply worked is there with the table's settings. */
  lemma EnabledPeersFollowTheTable(was: Interface, peers: seq<Peer>, applyDown: set<string>, removeDown: set<string>, now: Interface, i: nat)
    requires Synced(was, peers, applyDown, removeDown, now) && i < |peers| && peers[i].enabled && peers[i].key !in applyDown
    ensures peers[i].key in now && Follows(was, peers[i], now[peers[i].key])
  {
    assert now[peers[i].key] == Merged(was, peers[i]);
  }

  /** A pass does not undo everything: a preshared key or an endpoint dropped from the table stays on the interface
      exactly when the peer was already there with one. */
  lemma DroppedSettingsStay(was: Interface, peers: seq<Peer>, now: Interface, i: nat)
    requires Synced(was, peers, {}, {}, now) && i < |peers| && peers[i].enabled
    ensures var k := peers[i].key;
      && (peers[i].psk.None? ==> (now[k].psk.Some? <==> k in was && was[k].psk.Some?))
      && (peers[i].endpoint.None? ==> (now[k].endpoint.Some? <==> k in was && was[k].endpoint.Some?))
  {
    assert now[peers[i].key] == Merged(was, peers[i]);
  }

  // ---- AllowedIPs ------------------------------------------------------------------------------------------

  const SUPERNET: int := 10 * 256 + 10
  const SUPERNET_BITS: int := 16

  /** One comma-separated part after trimming: empty, not a prefix, an IPv6 prefix (mapped addresses included),
      or an IPv4 prefix with whatever host bits it was written with. */
  datatype Part = Empty | Malformed | V6(bits: nat) | V4(prefix: IpAlloc.Prefix)

  datatype Verdict = Fine | InvalidCidr | RouteAll | Outside | TooWide

  ghost predicate PartOk(p: Part) { p.V4? ==> IpAlloc.Wellformed(p.prefix) }

  /** 10.10.0.0/16 holds the address: its first two bytes are 10.10. */
  predicate InSupernet(a: int) { a / 0x1_0000 == SUPERNET }

  function Judge(p: Part): Verdict {
    match p
    case Empty => Fine
    case Malformed => InvalidCidr
    case V6(bits) => if bits == 0 then RouteAll else Outside
    case V4(prefix) =>
      if prefix.bits == 0 then RouteAll
      else if !InSupernet(prefix.addr) then Outside
      else if prefix.bits < SUPERNET_BITS then TooWide
      else Fine
  }

  /** What is wrong with a part, in the order in which it is looked for. */
  ghost predicate Faults(p: Part, v: Verdict)
    requires PartOk(p)
  {
    match p
    case Empty => false
    case Malformed => v == InvalidCidr
    case V6(bits) => v == if bits == 0 then RouteAll else Outside
    case V4(prefix) =>
      match v
      case RouteAll => prefix.bits == 0
      case Outside => prefix.bits > 0 && !(0x0A0A_0000 <= prefix.addr <= 0x0A0A_FFFF)
      case TooWide => 0 < prefix.bits < 16 && 0x0A0A_0000 <= prefix.addr <= 0x0A0A_FFFF
      case _ => false
  }

  /** Every address the part stands for lies in 10.10.0.0/16. */
  ghost predicate Contained(p: Part)
    requires PartOk(p)
  {
    match p
    case Empty => true
    case V4(prefix) => 0x0A0A_0000 <= IpAlloc.Network(prefix) && IpAlloc.Broadcast(prefix) <= 0x0A0A_FFFF
    case _ => false
  }

  /** The list is accepted exactly when every part is contained, and otherwise the first bad part is named. */
  method ValidateAllowedIPs(parts: seq<Part>) returns (v: Verdict)
    requires forall i :: 0 <= i < |parts| ==> PartOk(parts[i])
    ensures v == Fine <==> forall i :: 0 <= i < |parts| ==> Contained(parts[i])
    ensures v != Fine ==> exists i :: 0 <= i < |parts| && Faults(parts[i], v) && forall j :: 0 <= j < i ==> Contained(parts[j])
  {
    for i := 0 to |parts|
      invariant forall j :: 0 <= j < i ==> Contained(parts[j])
    {
      var part := parts[i];
      FineMeansContained(part);
      if part.Empty? { continue; }
      if part.Malformed? { return InvalidCidr; }
      var bits := if part.V4? then part.prefix.bits else part.bits;
      if bits == 0 { return RouteAll; }
      if part.V6? || !InSupernet(part.prefix.addr) { return Outside; }
      if bits < SUPERNET_BITS { return TooWide; }
    }
    v := Fine;
  }

  lemma FineMeansContained(p: Part)
    requires PartOk(p)
    ensures Judge(p) == Fine <==> Contained(p)
  {
    if p.V4? { MaskTestIsContainment(p.prefix); }
  }

  /** Looking at one address and the mask is as good as looking at the whole range. */
  lemma MaskTestIsContainment(p: IpAlloc.Prefix)
    requires IpAlloc.Wellformed(p)
    ensures (0x0A0A_0000 <= IpAlloc.Network(p) && IpAlloc.Broadcast(p) <= 0x0A0A_FFFF) <==> InSupernet(p.addr) && p.bits >= SUPERNET_BITS
    ensures InSupernet(p.addr) <==> 0x0A0A_0000 <= p.addr <= 0x0A0A_FFFF
  {
    IpAlloc.MaskedPrefix(p);
    if p.bits >= SUPERNET_BITS {
      SmallBlock(p);
      assert IpAlloc.Network(p) / 0x1_0000 == p.addr / 0x1_0000 == IpAlloc.Broadcast(p) / 0x1_0000;
    } else {
      WideBlock(p);
    }
  }

  lemma WideBlock(p: IpAlloc.Prefix)
    requires IpAlloc.Wellformed(p) && p.bits < SUPERNET_BITS
    ensures IpAlloc.Size(p) > 0x1_0000
  {
    IpAlloc.ByteWeight(2);
    IpAlloc.Pow2Adds(16, 16 - p.bits);
    assert IpAlloc.Pow2(16 - p.bits) == 2 * IpAlloc.Pow2(15 - p.bits);
  }

  /** A prefix of at least 16 bits does not straddle a /16. */
  lemma SmallBlock(p: IpAlloc.Prefix)
    requires IpAlloc.Wellformed(p) && p.bits >= SUPERNET_BITS
    ensures forall a :: IpAlloc.Network(p) <= a <= IpAlloc.Broadcast(p) ==> a / 0x1_0000 == p.addr / 0x1_0000
  {
    var n, k := IpAlloc.Size(p), IpAlloc.Pow2(p.bits - 16);
    IpAlloc.ByteWeight(2);
    IpAlloc.Pow2Adds(p.bits - 16, 32 - p.bits);
    assert k * n == 0x1_0000;
    var q, x := p.addr / 0x1_0000, p.addr % 0x1_0000;
    IpAlloc.BlockInside(x, n, k);
    SameOffset(p.addr, q, x, k, n);
  }

  lemma SameOffset(addr: int, q: int, x: int, k: int, n: int)
    requires n > 0 && 0 <= x && addr == q * (k * n) + x
    ensures addr % n == x % n
  {
    assert q * (k * n) == (q * k) * n;
    IpAlloc.Divides(n, q * k, x);
    assert addr == (q * k) * n + x;
    assert addr == addr / n * n + addr % n && x == x / n * n + x % n;
    assert (q * k + x / n) * n == (q * k) * n + x / n * n;
  }
}
