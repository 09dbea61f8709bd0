/** Who may talk to a controller: single-use pairing codes, and signed requests that are accepted once. */
module Gatekeeper {
  import opened Basics

  /** Nanoseconds. */
  type Time = int
  type Secret = nat

  const MINUTE: Time := 60_000_000_000
  const TOLERANCE: Time := 2 * MINUTE
  const RETENTION: Time := 5 * MINUTE
  const CODE_LIFETIME: Time := 10 * MINUTE

  /** How long a request may take from its timestamp check to its nonce check. */
  const SLACK: Time := RETENTION - 2 * TOLERANCE

  /** A request as signed: only who holds the secret of the pairing can make it. */
  datatype Request = Request(node: string, secret: Secret, timestamp: Time, nonce: string, body: string)

  datatype Entry = Entry(request: Request, seen: Time)

  predicate Near(a: Time, b: Time) {
    -TOLERANCE <= a - b <= TOLERANCE
  }

  /** The nonces young enough to keep. */
  function Kept(nonces: map<string, Time>, now: Time): map<string, Time> {
    map nonce | nonce in nonces && now - nonces[nonce] <= RETENTION :: nonces[nonce]
  }

  function Nonces(replays: map<string, map<string, Time>>, node: string): map<string, Time> {
    if node in replays then replays[node] else map[]
  }

  ghost predicate NoRepeat(accepted: seq<Entry>) {
    forall i, j :: 0 <= i < j < |accepted| ==> accepted[i].request != accepted[j].request
  }

  class Controller {
    var clock: Time
    var pairings: map<string, Time>
    var replays: map<string, map<string, Time>>
    var secrets: map<string, Secret>
    ghost var accepted: seq<Entry>
    /** Secrets drawn since the home was founded; `drawn` are all secrets. */
    ghost var current: set<Secret>
    ghost var drawn: set<Secret>
    /** Pairing codes with their expiry, and those that were redeemed. */
    ghost var codes: map<string, Time>
    ghost var redeemed: set<string>
    /** The code that is being redeemed: one at a time, under a lock. */
    ghost var redeeming: Option<string>
    /** Every accepted request reached its nonce check in time and in the home that checked its signature. */
    ghost var timely: bool

    ghost predicate Remembered(e: Entry)
      reads this
    {
      RememberedIn(replays, e)
    }

    /** The nonce of an accepted request of this home is remembered until no copy of it can pass. */
    ghost predicate EntryFits(e: Entry)
      reads this
    {
      && e.seen <= clock
      && e.request.timestamp <= e.seen + TOLERANCE
      && e.request.secret in drawn
      && (e.request.secret in current ==> Remembered(e) || clock > e.seen + RETENTION)
    }

    ghost predicate Valid()
      reads this
    {
      && secrets.Values <= current <= drawn
      && (forall id :: id in pairings ==> id in codes && pairings[id] == codes[id])
      && redeemed <= codes.Keys && redeemed !! pairings.Keys
      && (redeeming.Some? ==> redeeming.value in codes && redeeming.value !in redeemed)
      && (forall i :: 0 <= i < |accepted| ==> EntryFits(accepted[i]))
      && (timely ==> NoRepeat(accepted))
    }

    constructor ()
      ensures Valid() && accepted == [] && timely && redeeming == None && clock == 0
      ensures drawn == {} && codes == map[] && secrets == map[] && replays == map[]
    {
      clock, pairings, replays, secrets := 0, map[], map[], map[];
      accepted, current, drawn, codes, redeemed, redeeming, timely := [], {}, {}, map[], {}, None, true;
    }

    method Wait(d: nat)
      requires Valid()
      modifies this`clock
      ensures Valid() && clock == old(clock) + d
    {
      clock := clock + d;
    }

    // ----- pairing

    method CreateCode(id: string)
      requires Valid() && id !in codes
      modifies this`pairings, this`codes
      ensures Valid() && codes == old(codes)[id := clock + 600_000_000_000] && pairings == old(pairings)[id := clock + 600_000_000_000]
    {
      pairings := pairings[id := clock + CODE_LIFETIME];
      codes := codes[id := clock + CODE_LIFETIME];
    }

    /** The first half of redeeming a code: it exists, has not expired, and the joining server knows it. */
    method CheckCode(id: string, proven: bool) returns (ok: bool)
      requires Valid() && redeeming.None?
      modifies this`redeeming
      ensures Valid() && redeeming == if ok then Some(id) else None
      ensures ok <==> id in pairings && pairings[id] > clock && proven
      ensures ok ==> id in codes && clock < codes[id] && id !in redeemed
    {
      ok := id in pairings && pairings[id] > clock && proven;
      redeeming := if ok then Some(id) else None;
    }

    /** The second half, any time later and whatever else happened since: the node's secret is stored first, and the code is
        consumed once the reply is ready. */
    method Redeem(id: string, node: string, secret: Secret, stored: bool, replied: bool) returns (ok: bool)
      requires Valid() && redeeming == Some(id) && secret !in drawn
      modifies this`pairings, this`secrets, this`current, this`drawn, this`redeemed, this`redeeming
      ensures Valid() && redeeming.None? && (ok <==> stored && replied)
      ensures ok ==> id !in old(redeemed) && redeemed == old(redeemed) + {id} && pairings == old(pairings) - {id}
      ensures !ok ==> redeemed == old(redeemed) && pairings == old(pairings)
      ensures secrets == if stored then old(secrets)[node := secret] else old(secrets)
      ensures drawn == if stored then old(drawn) + {secret} else old(drawn)
    {
      redeeming := None;
      if stored {
        StoreNode(node, secret);
      }
      ok := stored && replied;
      if ok {
        Consume(id);
      }
    }

    method StoreNode(node: string, secret: Secret)
      requires Valid() && secret !in drawn
      modifies this`secrets, this`current, this`drawn
      ensures Valid() && secrets == old(secrets)[node := secret] && current == old(current) + {secret} && drawn == old(drawn) + {secret}
    {
      secrets := secrets[node := secret];
      current, drawn := current + {secret}, drawn + {secret};
    }

    method Consume(id: string)
      requires Valid() && id in codes && redeeming.None?
      modifies this`pairings, this`redeemed
      ensures Valid() && pairings == old(pairings) - {id} && redeemed == old(redeemed) + {id}
    {
      pairings := pairings - {id};
      redeemed := redeemed + {id};
    }

    method RemoveNode(node: string)
      requires Valid()
      modifies this`secrets
      ensures Valid() && secrets == old(secrets) - {node}
    {
      secrets := secrets - {node};
    }

    /** Leaving forgets codes, nonces and nodes. */
    method Leave()
      requires Valid()
      modifies this`pairings, this`replays, this`secrets, this`current
      ensures Valid() && pairings == map[] && replays == map[] && secrets == map[]
    {
      secrets, pairings, replays, current := map[], map[], map[], {};
    }

    // ----- signed requests

    /** The timestamp and the signature; the nonce is checked afterwards, under the lock. */
    method Begin(q: Request) returns (ok: bool, started: Time)
      requires Valid()
      ensures started == clock
      ensures ok <==> Near(clock, q.timestamp) && q.node in secrets && secrets[q.node] == q.secret
      ensures ok <==>
        && q.timestamp - 120_000_000_000 <= clock <= q.timestamp + 120_000_000_000
        && q.node in secrets && secrets[q.node] == q.secret
      ensures ok ==> q.secret in current
    {
      started := clock;
      ok := Near(clock, q.timestamp) && q.node in secrets && secrets[q.node] == q.secret;
    }

    /** The nonce check of a request whose timestamp and signature passed at `started`. */
    method Finish(q: Request, started: Time) returns (ok: bool)
      requires Valid() && started <= clock && Near(started, q.timestamp) && q.secret in drawn
      modifies this`replays, this`accepted, this`timely
      ensures Valid()
      ensures ok <==> !(q.node in old(replays) && q.nonce in old(replays)[q.node])
      ensures accepted == if ok then old(accepted) + [Entry(q, clock)] else old(accepted)
      ensures timely <==> old(timely) && (ok ==> InTime(q, started))
      ensures timely <==> old(timely) && (ok ==> clock <= started + 60_000_000_000 && q.secret in current)
      ensures timely ==> NoRepeat(accepted)
      ensures replays == if ok then old(replays)[q.node := Nonces(old(replays), q.node)[q.nonce := clock]] else old(replays)
    {
      ok := !(q.node in replays && q.nonce in replays[q.node]);
      if ok {
        Remember(q, started);
      }
    }

    method Remember(q: Request, ghost started: Time)
      requires Valid() && started <= clock && Near(started, q.timestamp) && q.secret in drawn
      requires !(q.node in replays && q.nonce in replays[q.node])
      modifies this`replays, this`accepted, this`timely
      ensures Valid() && accepted == old(accepted) + [Entry(q, clock)]
      ensures timely <==> old(timely) && InTime(q, started)
      ensures replays == old(replays)[q.node := Nonces(old(replays), q.node)[q.nonce := clock]]
    {
      if timely && InTime(q, started) {
        NotYetAccepted(q, started);
      }
      timely := timely && InTime(q, started);
      replays := replays[q.node := Nonces(replays, q.node)[q.nonce := clock]];
      accepted := accepted + [Entry(q, clock)];
    }

    /** The request reached its nonce check within the slack, and its pairing belongs to the present home. */
    ghost predicate InTime(q: Request, started: Time)
      reads this
    {
      clock - started <= SLACK && q.secret in current
    }

    lemma NotYetAccepted(q: Request, started: Time)
      requires Valid() && Near(started, q.timestamp) && InTime(q, started) && !(q.node in replays && q.nonce in replays[q.node])
      ensures forall i :: 0 <= i < |accepted| ==> accepted[i].request != q
    {
      forall i | 0 <= i < |accepted|
        ensures accepted[i].request != q
      {
        assert EntryFits(accepted[i]);
      }
    }

    // ----- forgetting

    /** Drop expired codes, and nonces no copy of which can pass any more. */
    method Expire()
      requires Valid()
      modifies this`pairings, this`replays
      ensures Valid()
      ensures pairings == map id | id in old(pairings) && old(pairings)[id] > clock :: old(pairings)[id]
      ensures forall node :: node in replays <==> node in old(replays) && Kept(old(replays)[node], clock) != map[]
      ensures forall node :: node in replays ==> replays[node] == Kept(old(replays)[node], clock)
    {
      ExpireCodes();
      ExpireNonces();
    }

    method ExpireCodes()
      requires Valid()
      modifies this`pairings
      ensures Valid()
      ensures pairings == map id | id in old(pairings) && old(pairings)[id] > clock :: old(pairings)[id]
    {
      var rest := pairings.Keys;
      while rest != {}
        invariant rest <= pairings.Keys <= old(pairings).Keys
        invariant forall id :: id in pairings ==> pairings[id] == old(pairings)[id]
        invariant forall id :: id in old(pairings) && (id in rest || old(pairings)[id] > clock) ==> id in pairings
        invariant forall id :: id in pairings && id !in rest ==> old(pairings)[id] > clock
      {
        var id := Pick(rest);
        rest := rest - {id};
        if pairings[id] <= clock {
          pairings := pairings - {id};
        }
      }
    }

    method ExpireNonces()
      requires Valid()
      modifies this`replays
      ensures Valid()
      ensures forall node :: node in replays <==> node in old(replays) && Kept(old(replays)[node], clock) != map[]
      ensures forall node :: node in replays ==> replays[node] == Kept(old(replays)[node], clock)
    {
      ghost var before := replays;
      replays := Prune(replays, clock);
      ForgottenInTime(before);
    }

    /** A forgotten nonce was seen longer than the retention ago. */
    lemma ForgottenInTime(before: map<string, map<string, Time>>)
      requires forall node :: node in replays <==> node in before && Kept(before[node], clock) != map[]
      requires forall node :: node in replays ==> replays[node] == Kept(before[node], clock)
      ensures forall i :: 0 <= i < |accepted| && RememberedIn(before, accepted[i]) ==>
        Remembered(accepted[i]) || clock > accepted[i].seen + RETENTION
    {
      forall i | 0 <= i < |accepted| && RememberedIn(before, accepted[i])
        ensures Remembered(accepted[i]) || clock > accepted[i].seen + RETENTION
      {
        var q := accepted[i].request;
        var nonces := before[q.node];
        if clock - nonces[q.nonce] <= RETENTION {
          assert q.nonce in Kept(nonces, clock);
        }
      }
    }
  }

  ghost predicate RememberedIn(replays: map<string, map<string, Time>>, e: Entry) {
    && e.request.node in replays
    && e.request.nonce in replays[e.request.node]
    && replays[e.request.node][e.request.nonce] >= e.seen
  }

  /** Every node's young nonces; a node without any is dropped. */
  method Prune(replays: map<string, map<string, Time>>, now: Time) returns (kept: map<string, map<string, Time>>)
    ensures forall node :: node in kept <==> node in replays && Kept(replays[node], now) != map[]
    ensures forall node :: node in kept ==> kept[node] == Kept(replays[node], now)
  {
    kept := replays;
    var rest := replays.Keys;
    while rest != {}
      invariant rest <= kept.Keys <= replays.Keys
      invariant forall node :: node in rest ==> kept[node] == replays[node]
      invariant forall node :: node in replays && node !in rest ==> (node in kept <==> Kept(replays[node], now) != map[])
      invariant forall node :: node in kept && node !in rest ==> kept[node] == Kept(replays[node], now)
    {
      var node := Pick(rest);
      rest := rest - {node};
      var nonces := KeepYoung(kept[node], now);
      if nonces == map[] {
        kept := kept - {node};
      } else {
        kept := kept[node := nonces];
      }
    }
  }

  method KeepYoung(nonces: map<string, Time>, now: Time) returns (young: map<string, Time>)
    ensures young == Kept(nonces, now)
    ensures forall nonce :: nonce in young <==> nonce in nonces && now <= nonces[nonce] + 300_000_000_000
    ensures forall nonce :: nonce in young ==> young[nonce] == nonces[nonce]
  {
    young := nonces;
    var rest := nonces.Keys;
    while rest != {}
      invariant rest <= young.Keys <= nonces.Keys
      invariant forall nonce :: nonce in young ==> young[nonce] == nonces[nonce]
      invariant forall nonce :: nonce in nonces && (nonce in rest || now - nonces[nonce] <= RETENTION) ==> nonce in young
      invariant forall nonce :: nonce in young && nonce !in rest ==> now - nonces[nonce] <= RETENTION
    {
      var nonce := Pick(rest);
      rest := rest - {nonce};
      if now - young[nonce] > RETENTION {
        young := young - {nonce};
      }
    }
  }

  // ----- why the slack is needed

  /** A controller with one paired node, which has just accepted one request. */
  method AcceptedOnce(q: Request) returns (c: Controller, ok: bool)
    requires q.node == "node" && q.secret == 1 && Near(0, q.timestamp)
    ensures ok && fresh(c) && c.Valid() && c.clock == 0 && c.secrets == map["node" := 1] && 1 in c.drawn
    ensures c.replays == map["node" := map[q.nonce := 0]] && c.accepted == [Entry(q, 0)]
  {
    c := new Controller();
    c.CreateCode("code");
    var known := c.CheckCode("code", true);
    var paired := c.Redeem("code", "node", 1, true, true);
    var begun, started := c.Begin(q);
    assert begun;
    ok := c.Finish(q, started);
  }

  /** However little more than the slack a copy of a request waits between its two checks, it can be accepted again. */
  method ReplayAfterStall(wait: nat) returns (c: Controller, q: Request)
    requires wait > SLACK
    ensures fresh(c) && c.Valid() && c.clock == 2 * TOLERANCE + wait
    ensures c.accepted == [Entry(q, 0), Entry(q, c.clock)] && !NoRepeat(c.accepted)
  {
    q := Request("node", 1, TOLERANCE, "nonce", "");
    var first, begun, started, second;
    c, first := AcceptedOnce(q);
    c.Wait(2 * TOLERANCE);
    begun, started := c.Begin(q);
    assert begun;
    c.Wait(wait);
    c.Expire();
    second := c.Finish(q, started);
    assert c.accepted[0].request == c.accepted[1].request;
  }

  /** A copy that is between its two checks while the controller leaves its home is accepted again, however soon. */
  method ReplayAcrossLeave() returns (c: Controller, q: Request)
    ensures fresh(c) && c.Valid() && c.clock == 0
    ensures c.accepted == [Entry(q, 0), Entry(q, 0)] && !NoRepeat(c.accepted)
  {
    q := Request("node", 1, 0, "nonce", "");
    var first, begun, started, second;
    c, first := AcceptedOnce(q);
    begun, started := c.Begin(q);
    assert begun;
    c.Leave();
    second := c.Finish(q, started);
    assert c.accepted[0].request == c.accepted[1].request;
  }
}
