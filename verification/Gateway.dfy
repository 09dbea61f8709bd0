/** The encrypted-DNS gateway: endpoint clients across reloads, and fallback between providers. */
module Gateway {
  import opened Basics

  datatype Endpoint = Endpoint(url: string, bootstrap: seq<string>)

  /** A client object: two clients for the same endpoint are still different clients. */
  datatype Client = Client(id: nat, endpoint: Endpoint)

  /** The clients of one accepted configuration; a nil state has none. */
  type Generation = Option<seq<Client>>

  function Clients(g: Generation): set<Client> {
    if g.None? then {} else set c | c in g.value
  }

  /** What a reload is asked for: the standard transport, or these encrypted endpoints. */
  datatype Config = Invalid | Standard | Encrypted(endpoints: seq<Endpoint>)

  function Endpoints(clients: seq<Client>): (r: seq<Endpoint>)
    ensures |r| == |clients|
  {
    seq(|clients|, i requires 0 <= i < |clients| => clients[i].endpoint)
  }

  /** The endpoints a generation serves. */
  function Serving(g: Generation): seq<Endpoint> {
    if g.None? then [] else Endpoints(g.value)
  }

  class Proxy {
    var state: Generation
    var previous: Generation
    var next: nat
    var nextId: nat
    var closed: set<Client>
    ghost var created: set<Client>

    /** Every client ever created is either closed or held by the current or the previous generation, never both. */
    ghost predicate Valid()
      reads this
    {
      && created == closed + Held()
      && closed !! Held()
      && forall c :: c in created ==> c.id < nextId
    }

    ghost function Held(): set<Client>
      reads this
    {
      Clients(state) + Clients(previous)
    }

    constructor ()
      ensures Valid() && state == None && previous == None && created == {} && next == 0
    {
      next := 0;
      state, previous, nextId, closed, created := None, None, 0, {}, {};
    }

    static method MatchingClient(endpoint: Endpoint, states: seq<Generation>) returns (found: Option<Client>)
      ensures found.Some? ==> found.value.endpoint == endpoint && exists i :: 0 <= i < |states| && found.value in Clients(states[i])
      ensures found.None? ==> forall i, c :: 0 <= i < |states| && c in Clients(states[i]) ==> c.endpoint != endpoint
      ensures |states| > 0 && (exists c :: c in Clients(states[0]) && c.endpoint == endpoint) ==>
        found.Some? && found.value in Clients(states[0])
    {
      for i := 0 to |states|
        invariant forall k, c :: 0 <= k < i && c in Clients(states[k]) ==> c.endpoint != endpoint
      {
        if states[i].Some? {
          var clients := states[i].value;
          for j := 0 to |clients|
            invariant forall k :: 0 <= k < j ==> clients[k].endpoint != endpoint
          {
            if clients[j].endpoint == endpoint {
              assert clients[j] in Clients(states[i]);
              return Some(clients[j]);
            }
          }
        }
      }
      found := None;
    }

    /** Close the clients of a retired generation that none of the kept ones uses. */
    method CloseUnused(retired: Generation, keep: seq<Generation>)
      modifies this`closed
      ensures closed == old(closed) + (Clients(retired) - Union(keep))
    {
      if retired.None? {
        return;
      }
      var retained: set<Client> := {};
      for i := 0 to |keep|
        invariant retained == Union(keep[..i])
      {
        assert keep[..i + 1][..i] == keep[..i];
        retained := retained + Clients(keep[i]);
      }
      assert keep[..|keep|] == keep;
      var clients := retired.value;
      for j := 0 to |clients|
        invariant closed == old(closed) + ((set c | c in clients[..j]) - Union(keep))
        invariant Union(keep) <= retained <= Union(keep) + closed
      {
        assert clients[..j + 1] == clients[..j] + [clients[j]];
        if clients[j] !in retained {
          closed := closed + {clients[j]};
          retained := retained + {clients[j]};
        }
      }
      assert clients[..|clients|] == clients;
    }

    static function Union(states: seq<Generation>): set<Client> {
      if states == [] then {} else Union(states[..|states| - 1]) + Clients(states[|states| - 1])
    }

    /** Keep one rollback generation; retire clients that neither accepted generation needs. */
    method ReplaceState(accepted: Generation)
      modifies this
      ensures state == accepted && previous == old(state)
      ensures closed == old(closed) + (Clients(old(previous)) - (Clients(old(state)) + Clients(accepted)))
      ensures nextId == old(nextId) && created == old(created) && next == old(next)
    {
      var keep := [state, accepted];
      assert keep[..1][..0] == [] && keep[..1] == [state] && Union([state]) == Clients(state);
      assert Union(keep) == Clients(state) + Clients(accepted);
      CloseUnused(previous, keep);
      previous := state;
      state := accepted;
    }

    /** One client per endpoint: reused from the current or the previous generation where there is one. */
    method BuildClients(endpoints: seq<Endpoint>, valid: Endpoint -> bool) returns (clients: seq<Client>, made: seq<Client>, ok: bool)
      requires Valid()
      modifies this`nextId, this`created
      ensures ok ==> Endpoints(clients) == endpoints
      ensures ok ==> (forall c :: c in clients ==> c in Held() || c in made) && (forall c :: c in made ==> c in clients)
      ensures ok ==>
        forall i :: 0 <= i < |endpoints| && (exists c :: c in Clients(state) && c.endpoint == endpoints[i]) ==> clients[i] in Clients(state)
      ensures !ok ==> exists i :: 0 <= i < |endpoints| && !valid(endpoints[i])
      ensures created == old(created) + (set c | c in made) && forall c :: c in made ==> c !in old(created)
      ensures nextId >= old(nextId) && forall c :: c in created ==> c.id < nextId
    {
      clients, made, ok := [], [], true;
      for i := 0 to |endpoints|
        invariant |clients| == i && forall k :: 0 <= k < i ==> clients[k].endpoint == endpoints[k]
        invariant forall c :: c in clients ==> c in Held() || c in made
        invariant forall c :: c in made ==> c in clients
        invariant forall k :: 0 <= k < i && (exists c :: c in Clients(state) && c.endpoint == endpoints[k]) ==> clients[k] in Clients(state)
        invariant created == old(created) + (set c | c in made) && forall c :: c in made ==> c !in old(created)
        invariant nextId >= old(nextId) && forall c :: c in created ==> c.id < nextId
      {
        var found := MatchingClient(endpoints[i], [state, previous]);
        if found.None? {
          if !valid(endpoints[i]) {
            ok := false;
            return;
          }
          var client := Client(nextId, endpoints[i]);
          nextId := nextId + 1;
          created := created + {client};
          made := made + [client];
          found := Some(client);
        }
        clients := clients + [found.value];
      }
    }

    /** Apply a configuration, or leave the gateway serving what it served. */
    method ReloadConfig(config: Config, valid: Endpoint -> bool) returns (ok: bool)
      requires Valid()
      modifies this
      ensures Valid() && old(created) <= created && old(closed) <= closed
      ensures ok ==> !config.Invalid? && previous == old(state) && state.Some?
      ensures ok ==> Serving(state) == if config.Encrypted? then config.endpoints else []
      ensures ok && config.Encrypted? && config.endpoints == Serving(old(state)) && Unambiguous(old(state)) && old(state).Some? ==>
        state == old(state)
      ensures !ok ==> state == old(state) && previous == old(previous)
      ensures config.Encrypted? && (forall e :: e in config.endpoints ==> valid(e)) ==> ok
      ensures config.Standard? ==> ok
    {
      if config.Invalid? {
        return false;
      }
      if config.Standard? {
        ReplaceState(Some([]));
        return true;
      }
      var clients, made;
      clients, made, ok := BuildClients(config.endpoints, valid);
      if !ok {
        assert Union([]) == {};
        CloseUnused(Some(made), []);
        return;
      }
      if config.endpoints == Serving(state) && Unambiguous(state) && state.Some? {
        SameClients(state.value, clients);
      }
      ReplaceState(Some(clients));
    }

    /** Return to the generation before the last successful reload. */
    method RestorePrevious()
      requires Valid()
      modifies this
      ensures Valid() && state == old(previous) && previous == old(previous) && created == old(created) && old(closed) <= closed
    {
      var failed := state;
      state := previous;
      assert [previous][..0] == [] && Union([previous]) == Clients(previous);
      CloseUnused(failed, [previous]);
    }

    /** Give each remaining provider an equal share of the time that is left. An attempt takes no longer than its share.
        Every provider is tried at most once, in rotation order, until one gives a usable answer; no share is smaller than
        an equal part of the whole deadline, and the attempts together never take longer than it. Each query moves the
        start of the rotation on by one. */
    method Exchange(deadline: nat, attempt: Attempt)
        returns (response: Option<seq<Byte>>, ghost shares: seq<nat>, ghost used: seq<nat>, ghost tried: seq<nat>)
      requires OnTime(attempt)
      modifies this`next
      ensures Sum(used) <= deadline
      ensures state.None? || state.value == [] ==> response.None? && shares == [] && next == old(next)
      ensures state.Some? && state.value != [] ==>
        var n := |state.value|;
        && next == old(next) + 1 && Offered(deadline, n, shares, used)
        && EachOnce(state.value, old(next) % n, attempt, shares, used, tried)
        && FirstUsable(state.value, attempt, shares, tried, response)
        && (forall k :: 0 <= k < |shares| ==> shares[k] >= deadline / n)
      ensures response.None? && state.Some? && deadline >= |state.value| ==> |tried| == |state.value| && NoneUsable(state.value, attempt)
    {
      response, shares, used, tried := None, [], [], [];
      if state.None? || state.value == [] {
        return;
      }
      next := next + 1;
      response, shares, used, tried := ExchangeFrom(state.value, (next - 1) % |state.value|, deadline, attempt);
    }
  }

  /** No two clients of the generation serve the same endpoint: endpoints are collapsed before a reload. */
  predicate Unambiguous(g: Generation) {
    g.None? || forall i, j :: 0 <= i < j < |g.value| ==> g.value[i].endpoint != g.value[j].endpoint
  }

  lemma SameClients(before: seq<Client>, clients: seq<Client>)
    requires Unambiguous(Some(before)) && Endpoints(clients) == Endpoints(before)
    requires forall i :: 0 <= i < |clients| && (exists c :: c in Clients(Some(before)) && c.endpoint == clients[i].endpoint) ==>
      clients[i] in Clients(Some(before))
    ensures clients == before
  {
    forall i | 0 <= i < |clients|
      ensures clients[i] == before[i]
    {
      assert Endpoints(clients)[i] == Endpoints(before)[i];
      assert before[i] in Clients(Some(before));
      var j :| 0 <= j < |before| && before[j] == clients[i];
    }
  }

  /** A successful reload that has to be taken back gives the earlier generation back: the same clients, still open, while
      all others, among them those of the generation `tried`, are closed. */
  method ReloadAndTakeBack(proxy: Proxy, config: Config, valid: Endpoint -> bool) returns (ok: bool, ghost tried: Generation)
    requires proxy.Valid()
    modifies proxy
    ensures config.Standard? || (config.Encrypted? && forall e :: e in config.endpoints ==> valid(e)) ==> ok
    ensures ok ==> tried.Some? && Serving(tried) == (if config.Encrypted? then config.endpoints else []) && Clients(tried) <= proxy.created
    ensures ok ==> proxy.previous == old(proxy.state) && proxy.closed == proxy.created - Clients(proxy.state)
    ensures !ok ==> proxy.previous == old(proxy.previous)
    ensures proxy.Valid() && proxy.state == old(proxy.state) && Clients(proxy.state) !! proxy.closed
  {
    ok := proxy.ReloadConfig(config, valid);
    tried := proxy.state;
    if ok {
      proxy.RestorePrevious();
    }
  }

  // ----- fallback between providers

  type Byte = bv8

  datatype Answer = Failed | Reply(message: seq<Byte>)

  /** The response code of a DNS message; one too short to carry a code counts as SERVFAIL (2). */
  function ResponseCode(message: seq<Byte>): Byte {
    if |message| < 4 then 2 else message[3] & 0x0f
  }

  predicate Usable(answer: Answer) {
    answer.Reply? && ResponseCode(answer.message) != 2
  }

  /** What a client makes of its budget: an answer, and the time it took. */
  type Attempt = (Client, nat) -> (Answer, nat)

  ghost predicate OnTime(attempt: Attempt) {
    forall c, budget :: attempt(c, budget).1 <= budget
  }

  /** The time left covers `part` for each of the m providers still to be tried. */
  predicate Enough(remaining: int, m: int, part: nat) {
    remaining >= part * m
  }

  /** The client tried at each offset when the rotation starts at `start`. */
  function Turn(clients: seq<Client>, start: nat, offset: nat): (c: Client)
    requires start < |clients| && offset < |clients|
    ensures c == clients[(start + offset) % |clients|]
  {
    TurnWraps(start, offset, |clients|);
    if start + offset < |clients| then clients[start + offset] else clients[start + offset - |clients|]
  }

  lemma TurnWraps(start: nat, offset: nat, n: nat)
    requires start < n && offset < n
    ensures (start + offset) % n == if start + offset < n then start + offset else start + offset - n
  {
    var rounds := if start + offset < n then 0 else 1;
    DivisionIsUnique(start + offset, rounds, start + offset - rounds * n, n);
  }

  /** Different offsets lead to different positions, and every position has its offset. */
  lemma TurnsDiffer(start: nat, n: nat, a: nat, b: nat)
    requires start < n && a < b < n
    ensures (start + a) % n != (start + b) % n
  {
    TurnWraps(start, a, n);
    TurnWraps(start, b, n);
  }

  lemma OffsetOf(start: nat, n: nat, position: nat) returns (offset: nat)
    requires start < n && position < n
    ensures offset < n && (start + offset) % n == position
  {
    offset := if position >= start then position - start else position + n - start;
    TurnWraps(start, offset, n);
  }

  function Sum(s: seq<nat>): nat {
    if s == [] then 0 else Sum(s[..|s| - 1]) + s[|s| - 1]
  }

  /** Each attempt was offered an equal part of what the earlier ones had left of the deadline, and kept to it. */
  predicate Offered(deadline: nat, n: nat, shares: seq<nat>, used: seq<nat>) {
    && |used| == |shares| <= n
    && forall i :: 0 <= i < |shares| ==> OneOffer(deadline, n, shares, used, i)
  }

  predicate OneOffer(deadline: nat, n: nat, shares: seq<nat>, used: seq<nat>, i: nat)
    requires i < |shares| == |used| && i < n
  {
    shares[i] == (deadline - Sum(used[..i])) / (n - i) && used[i] <= shares[i]
  }

  /** The times are those the attempts took, each made with its share at its turn. */
  predicate Took(clients: seq<Client>, start: nat, attempt: Attempt, shares: seq<nat>, used: seq<nat>)
    requires start < |clients|
  {
    && |used| == |shares| <= |clients|
    && forall i :: 0 <= i < |used| ==> used[i] == attempt(Turn(clients, start, i), shares[i]).1
  }

  /** The positions tried, from the first in rotation order, no position twice. */
  ghost predicate EachOnce(clients: seq<Client>, start: nat, attempt: Attempt, shares: seq<nat>, used: seq<nat>, tried: seq<nat>)
    requires start < |clients|
  {
    && |tried| == |shares| == |used| <= |clients|
    && (forall k :: 0 <= k < |tried| ==> tried[k] == (start + k) % |clients| < |clients|)
    && (forall j, k :: 0 <= j < k < |tried| ==> tried[j] != tried[k])
    && (forall k :: 0 <= k < |tried| ==> used[k] == attempt(clients[tried[k]], shares[k]).1)
  }

  lemma Positions(clients: seq<Client>, start: nat, attempt: Attempt, shares: seq<nat>, used: seq<nat>) returns (tried: seq<nat>)
    requires start < |clients| && Took(clients, start, attempt, shares, used)
    ensures EachOnce(clients, start, attempt, shares, used, tried)
  {
    tried := seq(|shares|, k requires 0 <= k < |shares| => (start + k) % |clients|);
    forall k | 0 <= k < |tried|
      ensures tried[k] < |clients| && used[k] == attempt(clients[tried[k]], shares[k]).1
    {
      TurnWraps(start, k, |clients|);
    }
    forall j, k | 0 <= j < k < |tried|
      ensures tried[j] != tried[k]
    {
      TurnsDiffer(start, |clients|, j, k);
    }
  }

  /** The attempt gives no answer, or one too short to carry a response code, or SERVFAIL. */
  ghost predicate Fails(attempt: Attempt, c: Client, share: nat) {
    var answer := attempt(c, share).0;
    answer.Failed? || |answer.message| < 4 || answer.message[3] & 0x0f == 2
  }

  /** All attempts failed, or all but the last, whose answer is the response. */
  ghost predicate FirstUsable(clients: seq<Client>, attempt: Attempt, shares: seq<nat>, tried: seq<nat>, response: Option<seq<Byte>>) {
    && |shares| == |tried| && (forall k :: 0 <= k < |tried| ==> tried[k] < |clients|)
    && (forall k :: 0 <= k < |tried| && (response.None? || k < |tried| - 1) ==> Fails(attempt, clients[tried[k]], shares[k]))
    && (response.Some? ==>
          && tried != [] && !Fails(attempt, clients[tried[|tried| - 1]], shares[|tried| - 1])
          && attempt(clients[tried[|tried| - 1]], shares[|tried| - 1]).0 == Reply(response.value))
  }

  ghost predicate NoneUsable(clients: seq<Client>, attempt: Attempt) {
    forall i :: 0 <= i < |clients| ==> FailsOnce(attempt, clients[i])
  }

  ghost predicate FailsOnce(attempt: Attempt, c: Client) {
    exists share: nat :: Fails(attempt, c, share)
  }

  lemma InTheirPlaces(clients: seq<Client>, start: nat, part: nat, attempt: Attempt, shares: seq<nat>, used: seq<nat>, tried: seq<nat>,
                      response: Option<seq<Byte>>)
    requires start < |clients| && EachOnce(clients, start, attempt, shares, used, tried)
    requires Tried(clients, start, part, attempt, shares, if response.Some? then |shares| - 1 else |shares|)
    requires response.Some? ==>
      && |shares| > 0 && ResponseCode(response.value) != 2
      && attempt(Turn(clients, start, |shares| - 1), shares[|shares| - 1]).0 == Reply(response.value)
    ensures FirstUsable(clients, attempt, shares, tried, response)
  {
    forall k | 0 <= k < |tried|
      ensures Turn(clients, start, k) == clients[tried[k]]
      ensures Fails(attempt, clients[tried[k]], shares[k]) <==> !Usable(attempt(Turn(clients, start, k), shares[k]).0)
    {
      TurnWraps(start, k, |clients|);
    }
  }

  /** If all turns failed, every client had its turn and failed. */
  lemma AllFailed(clients: seq<Client>, start: nat, part: nat, attempt: Attempt, shares: seq<nat>)
    requires start < |clients| == |shares| && Tried(clients, start, part, attempt, shares, |shares|)
    ensures NoneUsable(clients, attempt)
  {
    forall i | 0 <= i < |clients|
      ensures FailsOnce(attempt, clients[i])
    {
      var offset := OffsetOf(start, |clients|, i);
      assert Turn(clients, start, offset) == clients[i];
      assert Fails(attempt, clients[i], shares[offset]);
    }
  }

  lemma OneMoreOffer(deadline: nat, n: nat, shares: seq<nat>, used: seq<nat>, share: nat, time: nat)
    requires Offered(deadline, n, shares, used) && |shares| < n
    requires share == (deadline - Sum(used)) / (n - |shares|) && time <= share
    ensures Offered(deadline, n, shares + [share], used + [time]) && Sum(used + [time]) == Sum(used) + time
  {
    var k, more, times := |shares|, shares + [share], used + [time];
    assert times[..k] == used;
    forall i | 0 <= i < |more|
      ensures OneOffer(deadline, n, more, times, i)
    {
      if i < k {
        assert OneOffer(deadline, n, shares, used, i);
        assert times[..i] == used[..i];
      }
    }
  }

  /** The same from a given first provider. */
  method ExchangeFrom(clients: seq<Client>, start: nat, deadline: nat, attempt: Attempt)
      returns (response: Option<seq<Byte>>, ghost shares: seq<nat>, ghost used: seq<nat>, ghost tried: seq<nat>)
    requires start < |clients| && OnTime(attempt)
    ensures Sum(used) <= deadline && Offered(deadline, |clients|, shares, used)
    ensures EachOnce(clients, start, attempt, shares, used, tried) && FirstUsable(clients, attempt, shares, tried, response)
    ensures forall k :: 0 <= k < |shares| ==> shares[k] >= deadline / |clients|
    ensures response.None? && deadline >= |clients| ==> |tried| == |clients| && NoneUsable(clients, attempt)
  {
    DivisionIs(deadline, |clients|);
    ghost var part := deadline / |clients|;
    response, shares, used := TryInTurn(clients, start, deadline, attempt, part);
    tried := Positions(clients, start, attempt, shares, used);
    InTheirPlaces(clients, start, part, attempt, shares, used, tried, response);
    if deadline >= |clients| {
      AtLeastOne(deadline, |clients|);
      if response.None? {
        AllFailed(clients, start, part, attempt, shares);
      }
    }
  }

  /** The attempt loop, from a given first provider. */
  method TryInTurn(clients: seq<Client>, start: nat, deadline: nat, attempt: Attempt, ghost part: nat)
      returns (response: Option<seq<Byte>>, ghost shares: seq<nat>, ghost used: seq<nat>)
    requires start < |clients| && part * |clients| <= deadline && OnTime(attempt)
    ensures Sum(used) <= deadline && Offered(deadline, |clients|, shares, used) && Took(clients, start, attempt, shares, used)
    ensures Tried(clients, start, part, attempt, shares, if response.Some? then |shares| - 1 else |shares|)
    ensures response.Some? ==>
      && |shares| > 0 && ResponseCode(response.value) != 2
      && attempt(Turn(clients, start, |shares| - 1), shares[|shares| - 1]).0 == Reply(response.value)
    ensures response.None? && part > 0 ==> |shares| == |clients|
  {
    var remaining := deadline;
    response, shares, used := None, [], [];
    for offset := 0 to |clients|
      invariant |shares| == offset && Sum(used) + remaining == deadline && Offered(deadline, |clients|, shares, used)
      invariant Enough(remaining, |clients| - offset, part)
      invariant Tried(clients, start, part, attempt, shares, offset) && Took(clients, start, attempt, shares, used)
    {
      if remaining == 0 {
        NoTimeLeft(part, |clients| - offset);
        return;
      }
      var answer, share, time := TryOne(clients, start, offset, remaining, attempt, part);
      TriedOneMore(clients, start, part, attempt, shares, share);
      OneMoreOffer(deadline, |clients|, shares, used, share, time);
      shares, used := shares + [share], used + [time];
      remaining := remaining - time;
      if Usable(answer) {
        response := Some(answer.message);
        return;
      }
    }
  }

  method TryOne(clients: seq<Client>, start: nat, offset: nat, remaining: nat, attempt: Attempt, ghost part: nat)
      returns (answer: Answer, share: nat, time: nat)
    requires start < |clients| && offset < |clients| && OnTime(attempt) && Enough(remaining, |clients| - offset, part)
    ensures share == remaining / (|clients| - offset) && part <= share && time <= share && time <= remaining
    ensures Enough(remaining - time, |clients| - offset - 1, part)
    ensures (answer, time) == attempt(Turn(clients, start, offset), share)
  {
    var position := start + offset;
    if position >= |clients| {
      position := position - |clients|;
    }
    share := remaining / (|clients| - offset);
    EnoughLeft(remaining, |clients| - offset, part);
    var outcome := attempt(clients[position], share);
    answer, time := outcome.0, outcome.1;
  }

  lemma TriedOneMore(clients: seq<Client>, start: nat, part: nat, attempt: Attempt, shares: seq<nat>, share: nat)
    requires start < |clients| && |shares| < |clients| && share >= part
    requires Tried(clients, start, part, attempt, shares, |shares|)
    ensures Tried(clients, start, part, attempt, shares + [share], |shares|)
    ensures !Usable(attempt(Turn(clients, start, |shares|), share).0) ==>
      Tried(clients, start, part, attempt, shares + [share], |shares| + 1)
  {
  }

  lemma AtLeastOne(deadline: nat, n: nat)
    requires deadline >= n > 0
    ensures deadline / n >= 1
  {
    DivisionIs(deadline, n);
  }

  /** The first `failed` attempts in rotation order gave no usable answer; every share so far was at least `part`. */
  predicate Tried(clients: seq<Client>, start: nat, part: nat, attempt: Attempt, shares: seq<nat>, failed: int)
    requires start < |clients|
  {
    && 0 <= failed <= |shares| <= |clients|
    && (forall i :: 0 <= i < |shares| ==> shares[i] >= part)
    && (forall i :: 0 <= i < failed ==> !Usable(attempt(Turn(clients, start, i), shares[i]).0))
  }

  lemma MulMonotonic(a: int, b: int, m: int)
    requires a <= b && m >= 0
    ensures a * m <= b * m
  {
  }

  lemma NoTimeLeft(part: nat, m: nat)
    requires m > 0 && Enough(0, m, part)
    ensures part == 0
  {
    if part >= 1 {
      MulMonotonic(1, part, m);
    }
  }

  /** An equal part of what is left is at least the part of the whole, and taking no more leaves enough for the others. */
  lemma EnoughLeft(remaining: nat, m: nat, part: nat)
    requires m > 0 && Enough(remaining, m, part)
    ensures part <= remaining / m <= remaining
    ensures Enough(remaining - remaining / m, m - 1, part)
  {
    var s := remaining / m;
    DivisionIs(remaining, m);
    assert (s + 1) * m == s * m + m;
    if s < part {
      MulMonotonic(s + 1, part, m);
    }
    MulMonotonic(part, s, m - 1);
    assert s * (m - 1) == s * m - s;
  }

  lemma DivisionIs(x: int, n: int)
    requires n > 0
    ensures x == x / n * n + x % n && 0 <= x % n < n
  {
  }

  lemma DivisionIsUnique(x: int, q: int, r: int, n: int)
    requires n > 0 && x == q * n + r && 0 <= r < n
    ensures x / n == q && x % n == r
  {
    DivisionIs(x, n);
    var q' := x / n;
    assert (q + 1) * n == q * n + n && (q' + 1) * n == q' * n + n;
    if q < q' {
      MulMonotonic(q + 1, q', n);
    } else if q' < q {
      MulMonotonic(q' + 1, q, n);
    }
  }

  lemma NextRound(x: nat, n: nat)
    requires n > 0
    ensures (x + n) % n == x % n
  {
    DivisionIs(x, n);
    assert (x / n + 1) * n == x / n * n + n;
    DivisionIsUnique(x + n, x / n + 1, x % n, n);
  }

  /** The time that attempts gave back by failing before their share was used up. */
  function GivenBack(shares: seq<nat>, used: seq<nat>): int
    requires |shares| == |used|
  {
    if shares == [] then 0
    else
      var n := |shares| - 1;
      GivenBack(shares[..n], used[..n]) + shares[n] - used[n]
  }

  lemma {:induction false} SharesAreUsedOrGivenBack(shares: seq<nat>, used: seq<nat>)
    requires |shares| == |used|
    ensures Sum(shares) == Sum(used) + GivenBack(shares, used)
    decreases |shares|
  {
    if shares != [] {
      SharesAreUsedOrGivenBack(shares[..|shares| - 1], used[..|shares| - 1]);
    }
  }

  lemma {:induction false} NothingGivenBack(shares: seq<nat>, used: seq<nat>)
    requires |shares| == |used| && forall i :: 0 <= i < |shares| ==> used[i] <= shares[i]
    ensures GivenBack(shares, used) >= 0
    ensures GivenBack(shares, used) == 0 <==> used == shares
    decreases |shares|
  {
    if shares != [] {
      var n := |shares| - 1;
      NothingGivenBack(shares[..n], used[..n]);
      assert shares == shares[..n] + [shares[n]] && used == used[..n] + [used[n]];
    }
  }

  /** What is left of the deadline when attempt k begins. */
  function Left(deadline: nat, used: seq<nat>, k: nat): int
    requires k <= |used|
  {
    deadline - Sum(used[..k])
  }

  lemma {:induction false} TimeIsLeft(deadline: nat, n: nat, shares: seq<nat>, used: seq<nat>, k: nat)
    requires Offered(deadline, n, shares, used) && k <= |used|
    ensures 0 <= Left(deadline, used, k) <= deadline
    decreases k
  {
    if k > 0 {
      TimeIsLeft(deadline, n, shares, used, k - 1);
      assert OneOffer(deadline, n, shares, used, k - 1);
      var left := Left(deadline, used, k - 1);
      PartOf(left, n - k + 1);
      assert used[..k][..k - 1] == used[..k - 1];
    }
  }

  lemma PartOf(x: nat, m: nat)
    requires m > 0
    ensures x / m <= x
  {
    DivisionIs(x, m);
    MulMonotonic(1, m, x / m);
  }

  /** However many were tried: the shares stay within the deadline exactly when the attempts before the last gave back no
      more than the last one's share left over for the providers after it. */
  lemma SharesStayWithinExactlyWhen(deadline: nat, n: nat, shares: seq<nat>, used: seq<nat>, last: nat)
    requires Offered(deadline, n, shares, used) && last + 1 == |shares|
    ensures var left := Left(deadline, used, last);
      Sum(shares) <= deadline <==> GivenBack(shares[..last], used[..last]) <= left - left / (n - last)
  {
    assert OneOffer(deadline, n, shares, used, last);
    SharesAreUsedOrGivenBack(shares[..last], used[..last]);
  }

  /** When every provider is tried, nothing may be left over: the shares stay within the deadline exactly when every provider
      before the last used up its share, that is, when none of them failed early. */
  lemma AllTriedStayWithinExactlyWhen(deadline: nat, n: nat, shares: seq<nat>, used: seq<nat>)
    requires Offered(deadline, n, shares, used) && |shares| == n > 0
    ensures Sum(shares) <= deadline <==> forall i :: 0 <= i < n - 1 ==> used[i] == shares[i]
  {
    var last := n - 1;
    SharesStayWithinExactlyWhen(deadline, n, shares, used, last);
    forall i | 0 <= i < last
      ensures used[i] <= shares[i]
    {
      assert OneOffer(deadline, n, shares, used, i);
    }
    NothingGivenBack(shares[..last], used[..last]);
    if used[..last] == shares[..last] {
      forall i | 0 <= i < last
        ensures used[i] == shares[i]
      {
        assert used[..last][i] == shares[..last][i];
      }
    }
  }

  /** When a provider in the first half answers, the shares stay within the deadline however early the others failed. */
  lemma EarlyAnswerStaysWithin(deadline: nat, n: nat, shares: seq<nat>, used: seq<nat>)
    requires Offered(deadline, n, shares, used) && 2 * |shares| <= n + 1
    ensures Sum(shares) <= deadline
  {
    if shares != [] {
      var k := n - |shares| + 1;
      forall i | 0 <= i < |shares|
        ensures shares[i] <= deadline / k
      {
        OfferIsAtMost(deadline, n, shares, used, i, k);
      }
      SumIsAtMost(shares, deadline / k);
      PartsFit(|shares|, k, deadline);
    }
  }

  lemma OfferIsAtMost(deadline: nat, n: nat, shares: seq<nat>, used: seq<nat>, i: nat, k: nat)
    requires Offered(deadline, n, shares, used) && i < |shares| && 0 < k <= n - i
    ensures shares[i] <= deadline / k
  {
    assert OneOffer(deadline, n, shares, used, i);
    TimeIsLeft(deadline, n, shares, used, i);
    SmallerPart(Left(deadline, used, i), deadline, n - i, k);
  }

  lemma PartsFit(m: nat, k: nat, deadline: nat)
    requires m <= k && k > 0
    ensures m * (deadline / k) <= deadline
  {
    DivisionIs(deadline, k);
    MulMonotonic(m, k, deadline / k);
  }

  lemma SmallerPart(x: nat, y: nat, m: nat, k: nat)
    requires x <= y && m >= k > 0
    ensures x / m <= y / k
  {
    DivisionIs(x, m);
    DivisionIs(y, k);
    assert (y / k + 1) * k == y / k * k + k;
    MulMonotonic(k, m, x / m);
    if x / m > y / k {
      MulMonotonic(y / k + 1, x / m, k);
    }
  }

  lemma {:induction false} SumIsAtMost(s: seq<nat>, part: nat)
    requires forall i :: 0 <= i < |s| ==> s[i] <= part
    ensures Sum(s) <= |s| * part
    decreases |s|
  {
    if s != [] {
      SumIsAtMost(s[..|s| - 1], part);
      assert |s| * part == (|s| - 1) * part + part;
    }
  }

  /** What was offered can add up to more than the deadline, unlike what was used: when the first of two attempts fails at
      once, all of its share is offered again. */
  lemma SharesMayExceedDeadline()
    ensures Offered(10, 2, [5, 10], [0, 0]) && Sum([0, 0]) <= 10 < Sum([5, 10])
  {
    assert [0, 0][..1] == [0] && [0][..0] == [] && [0, 0][..0] == [];
    assert [5, 10][..1] == [5] && [5][..0] == [];
    assert Sum([0]) == 0 && Sum([5]) == 5;
    assert OneOffer(10, 2, [5, 10], [0, 0], 0) && OneOffer(10, 2, [5, 10], [0, 0], 1);
  }

  // ----- who goes first

  predicate GoesFirst(i: nat, n: nat, r: nat)
    requires n > 0
  {
    i % n == r
  }

  /** How many of the queries numbered from .. from + count - 1 start at provider r of n. */
  function TimesFirst(from: nat, count: nat, n: nat, r: nat): nat
    requires n > 0
  {
    if count == 0 then 0 else TimesFirst(from, count - 1, n, r) + if GoesFirst(from + count - 1, n, r) then 1 else 0
  }

  lemma {:induction false} TimesFirstSplit(from: nat, a: nat, b: nat, n: nat, r: nat)
    requires n > 0
    ensures TimesFirst(from, a + b, n, r) == TimesFirst(from, a, n, r) + TimesFirst(from + a, b, n, r)
    decreases b
  {
    if b > 0 {
      TimesFirstSplit(from, a, b - 1, n, r);
    }
  }

  lemma {:induction false} FirstRound(count: nat, n: nat, r: nat)
    requires r < n && count <= n
    ensures TimesFirst(0, count, n, r) == if r < count then 1 else 0
    decreases count
  {
    if count > 0 {
      FirstRound(count - 1, n, r);
      DivisionIsUnique(count - 1, 0, count - 1, n);
    }
  }

  /** Any n consecutive queries start at each provider once. */
  lemma {:induction false} OneRound(from: nat, n: nat, r: nat)
    requires r < n
    ensures TimesFirst(from, n, n, r) == 1
    decreases from
  {
    if from == 0 {
      FirstRound(n, n, r);
    } else {
      OneRound(from - 1, n, r);
      TimesFirstSplit(from - 1, 1, n, n, r);
      TimesFirstSplit(from - 1, n, 1, n, r);
      NextRound(from - 1, n);
      assert TimesFirst(from - 1, 1, n, r) == if GoesFirst(from - 1, n, r) then 1 else 0;
      assert TimesFirst(from - 1 + n, 1, n, r) == if GoesFirst(from - 1 + n, n, r) then 1 else 0;
    }
  }

  /** Fairness: over k rounds every provider goes first exactly k times, wherever counting begins. */
  lemma {:induction false} FairRotation(from: nat, k: nat, n: nat, r: nat)
    requires r < n
    ensures TimesFirst(from, k * n, n, r) == k
    decreases k
  {
    if k > 0 {
      FairRotation(from, k - 1, n, r);
      var before := (k - 1) * n;
      assert k * n == before + n;
      TimesFirstSplit(from, before, n, n, r);
      OneRound(from + before, n, r);
    }
  }

  /** Fairness of the code: k rounds of queries on one state go to each of its n providers first exactly k times; the
      provider that goes first is the one the query's rotation starts at. */
  method Rounds(proxy: Proxy, k: nat, deadline: nat, attempt: Attempt) returns (first: seq<nat>)
    requires proxy.state.Some? && proxy.state.value != [] && OnTime(attempt)
    modifies proxy`next
    ensures |first| == |proxy.state.value| && proxy.next == old(proxy.next) + k * |first|
    ensures forall r :: 0 <= r < |first| ==> first[r] == k == TimesFirst(old(proxy.next), k * |first|, |first|, r)
  {
    var n := |proxy.state.value|;
    var from := proxy.next;
    first := seq(n, i => 0);
    var queries := 0;
    while queries < k * n
      invariant queries <= k * n && proxy.next == from + queries && |first| == n
      invariant forall r :: 0 <= r < n ==> first[r] == TimesFirst(from, queries, n, r)
    {
      var start := proxy.next % n;
      var response, shares, used, tried := proxy.Exchange(deadline, attempt);
      first := first[start := first[start] + 1];
      queries := queries + 1;
    }
    forall r | 0 <= r < n
      ensures first[r] == k
    {
      FairRotation(from, k, n, r);
    }
  }
}
