/** The origin cache as the client changes it in place. */
module OriginCacheFields {
  import opened OriginGates
  import opened OriginCaches

  class OriginCache {
    const limits: Limits
    var origins: map<Key, Origin>
    var lru: seq<Key>
    var generation: nat
    var gates: GateId
    var blocked: set<GateId>
    var now: int

    ghost function State(): Cache
      reads this
    {
      Cache(origins, lru, generation, gates, blocked, now)
    }

    constructor (limits: Limits)
      ensures State() == EMPTY_CACHE && this.limits == limits
    {
      this.limits := limits;
      origins, lru, generation, gates, blocked, now := map[], [], 1, 0, {}, 0;
    }

    /** The list node of a key; past the end if it is not linked. */
    method NodeOf(key: Key) returns (i: nat)
      ensures i == Place(lru, key)
    {
      i := 0;
      while i < |lru| && lru[i] != key
        invariant 0 <= i <= |lru|
        invariant Place(lru, key) == i + Place(lru[i..], key)
      {
        assert lru[i..][1..] == lru[i + 1..];
        i := i + 1;
      }
    }

    /** Pushes the key to the front, or splices its node there. */
    method TouchCachedOrigin(key: Key)
      requires key in origins
      modifies `origins, `lru
      ensures State() == Touch(old(State()), key)
    {
      origins := origins[key := origins[key].(lastUsed := now)];
      var i := NodeOf(key);
      if i == |lru| {
        lru := [key] + lru;
      } else {
        lru := [key] + (lru[..i] + lru[i + 1..]);
      }
    }

    method EraseNode(i: nat)
      requires i < |lru|
      modifies `origins, `lru, `generation
      ensures State() == Erase(old(State()), i)
    {
      origins := origins - {lru[i]};
      lru := lru[..i] + lru[i + 1..];
      generation := generation + 1;
    }

    /** The loop body at node `i`; `done` when the loop breaks. */
    method VisitNode(i: nat) returns (done: bool)
      requires i < |lru|
      modifies `origins, `lru, `generation
      ensures done ==> State() == old(State()) && EvictFrom(State(), limits, i + 1) == State()
      ensures !done ==> i <= |lru|
      ensures !done ==> EvictFrom(State(), limits, i) == EvictFrom(old(State()), limits, i + 1)
    {
      var key := lru[i];
      if key !in origins {
        lru := lru[..i] + lru[i + 1..];
        return false;
      }
      var entry := origins[key];
      var expired := limits.ttl > 0 && now - entry.lastUsed >= limits.ttl;
      if entry.gate !in blocked && (expired || |origins| > limits.maxOrigins) {
        EraseNode(i);
        return false;
      }
      return |origins| <= limits.maxOrigins;
    }

    method EvictCachedOrigins()
      modifies `origins, `lru, `generation
      ensures State() == Evict(old(State()), limits)
    {
      if limits.maxOrigins == 0 {
        return;
      }
      var i := |lru|;
      while i > 0
        invariant 0 <= i <= |lru|
        invariant EvictFrom(State(), limits, i) == Evict(old(State()), limits)
        decreases i
      {
        var done := VisitNode(i - 1);
        if done {
          break;
        }
        i := i - 1;
      }
    }

    method GetGate(key: Key) returns (gate: GateId)
      modifies this
      ensures State() == OriginCaches.Step(old(State()), limits, OriginCaches.GetGate(key))
      ensures key in origins && origins[key].gate == gate
    {
      if key in origins {
        TouchCachedOrigin(key);
        return origins[key].gate;
      }
      EvictCachedOrigins();
      gate := gates;
      origins := origins[key := Origin(gate, Unknown, 0)];
      gates := gates + 1;
      TouchCachedOrigin(key);
    }

    method RememberRoute(key: Key, protocol: Protocol)
      modifies this
      ensures State() == OriginCaches.Step(old(State()), limits, OriginCaches.RememberRoute(key, protocol))
    {
      if protocol != H1Only && protocol != H2Available {
        return;
      }
      EvictCachedOrigins();
      if key !in origins {
        origins := origins[key := Origin(gates, Unknown, 0)];
        gates := gates + 1;
      }
      origins := origins[key := origins[key].(protocol := protocol)];
      TouchCachedOrigin(key);
    }
  }
}
