/** The cheap text that decides when time alone requires a new render. */
module TemporalSignature {
  import opened Basics
  import opened Schedule
  import opened Policy
  import opened Decimals

  // ----- the delimited encoding

  /** Every token followed by a semicolon. */
  function Delimited(tokens: seq<string>): string {
    if tokens == [] then "" else tokens[0] + ";" + Delimited(tokens[1..])
  }

  lemma FirstToken(a: string, b: string, x: string, y: string)
    requires ';' !in a && ';' !in b && a + ";" + x == b + ";" + y
    ensures a == b && x == y
  {
    var s, t := a + ";" + x, b + ";" + y;
    assert s[|a|] == ';' && t[|b|] == ';';
    assert s[..|a|] == a && t[..|b|] == b;
    assert s[|a| + 1..] == x && t[|b| + 1..] == y;
  }

  lemma {:induction false} DelimitedIsInjective(a: seq<string>, b: seq<string>)
    requires Clean(a) && Clean(b) && Delimited(a) == Delimited(b)
    ensures a == b
    decreases |a|
  {
    if a != [] && b != [] {
      FirstToken(a[0], b[0], Delimited(a[1..]), Delimited(b[1..]));
      DelimitedIsInjective(a[1..], b[1..]);
    }
  }

  lemma {:induction false} DelimitedAppend(a: seq<string>, token: string)
    ensures Delimited(a + [token]) == Delimited(a) + (token + ";")
    decreases |a|
  {
    if a == [] {
      assert a + [token] == [token];
    } else {
      DelimitedAppend(a[1..], token);
      assert (a + [token])[1..] == a[1..] + [token];
    }
  }

  // ----- the signature

  function ProfileToken(p: Profile, now: Instant): (s: string)
    ensures ';' !in s
  {
    "p:" + Decimal(p.id) + (if Active(p, now) then ":true" else ":false")
  }

  function ProfileTokens(profiles: seq<Profile>, now: Instant): seq<string> {
    seq(|profiles|, i requires 0 <= i < |profiles| => ProfileToken(profiles[i], now))
  }

  /** A token for every row whose condition holds now. */
  function Marked(tag: string, keys: seq<int>, on: seq<bool>): seq<string>
    requires |keys| == |on|
  {
    if keys == [] then []
    else
      var n := |keys| - 1;
      Marked(tag, keys[..n], on[..n]) + if on[n] then [tag + Decimal(keys[n])] else []
  }

  function PauseKeys(db: Database): seq<int> {
    seq(|db.pauses|, i requires 0 <= i < |db.pauses| => db.pauses[i].device)
  }

  function PauseFlags(db: Database, now: Instant): seq<bool> {
    seq(|db.pauses|, i requires 0 <= i < |db.pauses| => PausedAt(db.pauses[i].until, now))
  }

  function TrialKeys(db: Database): seq<int> {
    seq(|db.trials|, i requires 0 <= i < |db.trials| => db.trials[i].id)
  }

  function TrialFlags(db: Database, now: Instant): seq<bool> {
    seq(|db.trials|, i requires 0 <= i < |db.trials| => LiveTrial(db.trials[i], now))
  }

  function Tokens(db: Database, now: Instant): seq<string> {
    ProfileTokens(db.profiles, now) + Marked("d:", PauseKeys(db), PauseFlags(db, now)) + Marked("t:", TrialKeys(db), TrialFlags(db, now))
  }

  /** Three queries, one growing text. */
  method CurrentTemporalSignature(db: Database, now: Instant) returns (value: string)
    ensures value == Delimited(Tokens(db, now))
  {
    value := AddProfiles(db.profiles, now);
    var pauses, paused, trials, live := PauseKeys(db), PauseFlags(db, now), TrialKeys(db), TrialFlags(db, now);
    ghost var done := ProfileTokens(db.profiles, now);
    value := AddMarked("d:", pauses, paused, value, done);
    value := AddMarked("t:", trials, live, value, done + Marked("d:", pauses, paused));
  }

  lemma OneMoreProfile(profiles: seq<Profile>, i: nat, now: Instant)
    requires i < |profiles|
    ensures ProfileTokens(profiles[..i + 1], now) == ProfileTokens(profiles[..i], now) + [ProfileToken(profiles[i], now)]
  {
  }

  method AddProfiles(profiles: seq<Profile>, now: Instant) returns (value: string)
    ensures value == Delimited(ProfileTokens(profiles, now))
  {
    value := "";
    for i := 0 to |profiles|
      invariant value == Delimited(ProfileTokens(profiles[..i], now))
    {
      var token := ProfileToken(profiles[i], now);
      DelimitedAppend(ProfileTokens(profiles[..i], now), token);
      OneMoreProfile(profiles, i, now);
      value := value + (token + ";");
    }
    assert profiles[..|profiles|] == profiles;
  }

  lemma OneMoreMark(tag: string, keys: seq<int>, on: seq<bool>, i: nat, done: seq<string>)
    requires i < |keys| == |on|
    ensures done + Marked(tag, keys[..i + 1], on[..i + 1]) ==
      (done + Marked(tag, keys[..i], on[..i])) + (if on[i] then [tag + Decimal(keys[i])] else [])
  {
    assert keys[..i + 1][..i] == keys[..i] && on[..i + 1][..i] == on[..i];
  }

  method AddMarked(tag: string, keys: seq<int>, on: seq<bool>, before: string, ghost done: seq<string>) returns (value: string)
    requires |keys| == |on| && before == Delimited(done)
    ensures value == Delimited(done + Marked(tag, keys, on))
  {
    value := before;
    ghost var tokens := done;
    assert done + Marked(tag, [], []) == done;
    for i := 0 to |keys|
      invariant tokens == done + Marked(tag, keys[..i], on[..i]) && value == Delimited(tokens)
    {
      OneMoreMark(tag, keys, on, i, done);
      if on[i] {
        var token := tag + Decimal(keys[i]);
        DelimitedAppend(tokens, token);
        tokens := tokens + [token];
        value := value + (token + ";");
      }
    }
    assert keys[..|keys|] == keys && on[..|on|] == on;
  }

  // ----- equal signatures mean equal policy

  /** Nothing that time decides differs between the two instants. */
  predicate SameState(db: Database, now: Instant, later: Instant) {
    && (forall i :: 0 <= i < |db.profiles| ==> (Active(db.profiles[i], now) <==> Active(db.profiles[i], later)))
    && (forall i :: 0 <= i < |db.pauses| ==> (PausedAt(db.pauses[i].until, now) <==> PausedAt(db.pauses[i].until, later)))
    && (forall i :: 0 <= i < |db.trials| ==> (LiveTrial(db.trials[i], now) <==> LiveTrial(db.trials[i], later)))
  }

  predicate Distinct(keys: seq<int>) {
    forall i, j :: 0 <= i < j < |keys| ==> keys[i] != keys[j]
  }

  lemma ProfileTokenTells(p: Profile, now: Instant, later: Instant)
    requires ProfileToken(p, now) == ProfileToken(p, later)
    ensures Active(p, now) <==> Active(p, later)
  {
    var s, t := ProfileToken(p, now), ProfileToken(p, later);
    assert Active(p, now) ==> |s| == |"p:" + Decimal(p.id)| + 5;
    assert !Active(p, now) ==> |s| == |"p:" + Decimal(p.id)| + 6;
    assert Active(p, later) ==> |t| == |"p:" + Decimal(p.id)| + 5;
  }

  lemma LastTells<T>(a: seq<T>, b: seq<T>, token: T, x: bool, y: bool)
    requires token !in a && token !in b && a + (if x then [token] else []) == b + (if y then [token] else [])
    ensures a == b && x == y
  {
    var s, t := a + (if x then [token] else []), b + (if y then [token] else []);
    assert x <==> token in s;
    assert y <==> token in t;
    assert s[..|a|] == a && t[..|b|] == b;
  }

  /** The tokens tell, for every row, whether it was marked. */
  lemma {:induction false} MarkedTells(tag: string, keys: seq<int>, on: seq<bool>, on': seq<bool>)
    requires |keys| == |on| == |on'| && Distinct(keys)
    requires Marked(tag, keys, on) == Marked(tag, keys, on')
    ensures on == on'
    decreases |keys|
  {
    if keys != [] {
      var n := |keys| - 1;
      TokenIsNew(tag, keys[..n], on[..n], keys[n]);
      TokenIsNew(tag, keys[..n], on'[..n], keys[n]);
      LastTells(Marked(tag, keys[..n], on[..n]), Marked(tag, keys[..n], on'[..n]), tag + Decimal(keys[n]), on[n], on'[n]);
      MarkedTells(tag, keys[..n], on[..n], on'[..n]);
      assert on == on[..n] + [on[n]] && on' == on'[..n] + [on'[n]];
    }
  }

  lemma {:induction false} TokenIsNew(tag: string, keys: seq<int>, on: seq<bool>, key: int)
    requires |keys| == |on| && key !in keys
    ensures tag + Decimal(key) !in Marked(tag, keys, on)
    decreases |keys|
  {
    if keys != [] {
      var n := |keys| - 1;
      TokenIsNew(tag, keys[..n], on[..n], key);
      TokensDiffer(keys[n], key, tag);
    }
  }

  lemma TokensDiffer(m: int, n: int, tag: string)
    requires m != n
    ensures tag + Decimal(m) != tag + Decimal(n)
  {
    var s, t := tag + Decimal(m), tag + Decimal(n);
    assert s[|tag|..] == Decimal(m) && t[|tag|..] == Decimal(n);
    if s == t {
      DecimalIsInjective(m, n);
    }
  }

  predicate Tagged(tag: char, tokens: seq<string>) {
    forall i :: 0 <= i < |tokens| ==> tokens[i] != [] && tokens[i][0] == tag && ';' !in tokens[i]
  }

  lemma {:induction false} MarkedIsTagged(tag: string, keys: seq<int>, on: seq<bool>)
    requires |keys| == |on| && tag != [] && ';' !in tag
    ensures Tagged(tag[0], Marked(tag, keys, on))
    decreases |keys|
  {
    if keys != [] {
      MarkedIsTagged(tag, keys[..|keys| - 1], on[..|keys| - 1]);
    }
  }

  /** Tokens of two kinds in a row come apart in only one way. */
  lemma {:induction false} KindsComeApart(d: seq<string>, t: seq<string>, d': seq<string>, t': seq<string>)
    requires Tagged('d', d) && Tagged('d', d') && Tagged('t', t) && Tagged('t', t') && d + t == d' + t'
    ensures d == d' && t == t'
    decreases |d|
  {
    var all, all' := d + t, d' + t';
    assert all != [] ==> all[0][0] == if d != [] then 'd' else 't';
    assert all' != [] ==> all'[0][0] == if d' != [] then 'd' else 't';
    if d == [] {
      assert d' == [] && all == t && all' == t';
    } else {
      assert d' != [] && all[0] == d[0] && all'[0] == d'[0];
      assert all[1..] == d[1..] + t && all'[1..] == d'[1..] + t';
      KindsComeApart(d[1..], t, d'[1..], t');
    }
  }

  lemma TokensComeApart(db: Database, now: Instant, later: Instant)
    requires Tokens(db, now) == Tokens(db, later)
    ensures ProfileTokens(db.profiles, now) == ProfileTokens(db.profiles, later)
    ensures Marked("d:", PauseKeys(db), PauseFlags(db, now)) == Marked("d:", PauseKeys(db), PauseFlags(db, later))
    ensures Marked("t:", TrialKeys(db), TrialFlags(db, now)) == Marked("t:", TrialKeys(db), TrialFlags(db, later))
  {
    MarkedIsTagged("d:", PauseKeys(db), PauseFlags(db, now));
    MarkedIsTagged("d:", PauseKeys(db), PauseFlags(db, later));
    MarkedIsTagged("t:", TrialKeys(db), TrialFlags(db, now));
    MarkedIsTagged("t:", TrialKeys(db), TrialFlags(db, later));
    Drop(ProfileTokens(db.profiles, now), Marked("d:", PauseKeys(db), PauseFlags(db, now)),
         Marked("t:", TrialKeys(db), TrialFlags(db, now)),
         ProfileTokens(db.profiles, later), Marked("d:", PauseKeys(db), PauseFlags(db, later)),
         Marked("t:", TrialKeys(db), TrialFlags(db, later)));
  }

  lemma Drop(p: seq<string>, d: seq<string>, t: seq<string>, p': seq<string>, d': seq<string>, t': seq<string>)
    requires |p| == |p'| && p + d + t == p' + d' + t'
    requires Tagged('d', d) && Tagged('d', d') && Tagged('t', t) && Tagged('t', t')
    ensures p == p' && d == d' && t == t'
  {
    assert p == (p + d + t)[..|p|] && p' == (p' + d' + t')[..|p|];
    assert d + t == (p + d + t)[|p|..] && d' + t' == (p' + d' + t')[|p|..];
    KindsComeApart(d, t, d', t');
  }

  predicate Clean(tokens: seq<string>) {
    forall i :: 0 <= i < |tokens| ==> ';' !in tokens[i]
  }

  lemma CleanTogether(a: seq<string>, b: seq<string>, c: seq<string>)
    requires Clean(a) && Clean(b) && Clean(c)
    ensures Clean(a + b + c)
  {
  }

  lemma TokensAreClean(db: Database, now: Instant)
    ensures Clean(Tokens(db, now))
  {
    MarkedIsTagged("d:", PauseKeys(db), PauseFlags(db, now));
    MarkedIsTagged("t:", TrialKeys(db), TrialFlags(db, now));
    CleanTogether(ProfileTokens(db.profiles, now), Marked("d:", PauseKeys(db), PauseFlags(db, now)),
                  Marked("t:", TrialKeys(db), TrialFlags(db, now)));
  }

  /** The signature of one database at two instants is the same text if and only if time has changed nothing the policy
      depends on. */
  lemma SignatureTells(db: Database, now: Instant, later: Instant)
    requires Distinct(PauseKeys(db)) && Distinct(TrialKeys(db))
    ensures Delimited(Tokens(db, now)) == Delimited(Tokens(db, later)) <==> SameState(db, now, later)
  {
    if Delimited(Tokens(db, now)) == Delimited(Tokens(db, later)) {
      TokensAreClean(db, now);
      TokensAreClean(db, later);
      DelimitedIsInjective(Tokens(db, now), Tokens(db, later));
      TokensComeApart(db, now, later);
      TokensTell(db, now, later);
    }
    if SameState(db, now, later) {
      assert ProfileTokens(db.profiles, now) == ProfileTokens(db.profiles, later);
      assert PauseFlags(db, now) == PauseFlags(db, later);
      assert TrialFlags(db, now) == TrialFlags(db, later);
    }
  }

  lemma TokensTell(db: Database, now: Instant, later: Instant)
    requires Distinct(PauseKeys(db)) && Distinct(TrialKeys(db))
    requires ProfileTokens(db.profiles, now) == ProfileTokens(db.profiles, later)
    requires Marked("d:", PauseKeys(db), PauseFlags(db, now)) == Marked("d:", PauseKeys(db), PauseFlags(db, later))
    requires Marked("t:", TrialKeys(db), TrialFlags(db, now)) == Marked("t:", TrialKeys(db), TrialFlags(db, later))
    ensures SameState(db, now, later)
  {
    forall i | 0 <= i < |db.profiles|
      ensures Active(db.profiles[i], now) <==> Active(db.profiles[i], later)
    {
      assert ProfileTokens(db.profiles, now)[i] == ProfileTokens(db.profiles, later)[i];
      ProfileTokenTells(db.profiles[i], now, later);
    }
    MarkedTells("d:", PauseKeys(db), PauseFlags(db, now), PauseFlags(db, later));
    MarkedTells("t:", TrialKeys(db), TrialFlags(db, now), TrialFlags(db, later));
    forall i | 0 <= i < |db.pauses|
      ensures PausedAt(db.pauses[i].until, now) <==> PausedAt(db.pauses[i].until, later)
    {
      assert PauseFlags(db, now)[i] == PauseFlags(db, later)[i];
    }
    forall i | 0 <= i < |db.trials|
      ensures LiveTrial(db.trials[i], now) <==> LiveTrial(db.trials[i], later)
    {
      assert TrialFlags(db, now)[i] == TrialFlags(db, later)[i];
    }
  }

  // ----- and equal policy means an equal render

  lemma {:induction false} SamePauses(db: Database, pauses: seq<Pause>, now: Instant, later: Instant)
    requires forall i :: 0 <= i < |pauses| ==> (PausedAt(pauses[i].until, now) <==> PausedAt(pauses[i].until, later))
    ensures PausedDevices(db, pauses, now) == PausedDevices(db, pauses, later)
    decreases |pauses|
  {
    if pauses != [] {
      SamePauses(db, pauses[1..], now, later);
    }
  }

  lemma SameBlockHosts(db: Database, norm: Normalizer, now: Instant, later: Instant, id: ProfileId)
    requires SameState(db, now, later)
    ensures BlockHosts(db, norm, now, id) == BlockHosts(db, norm, later, id)
  {
    assert Allowed(db, now, id) == Allowed(db, later, id);
  }

  lemma {:induction false} SameHostsFiles(db: Database, norm: Normalizer, now: Instant, later: Instant, n: nat)
    requires SameState(db, now, later) && Renderable(db, norm, now) && Renderable(db, norm, later) && n <= |db.profiles|
    ensures HostsFiles(db, norm, now, n) == HostsFiles(db, norm, later, n)
    decreases n
  {
    if n > 0 {
      SameHostsFiles(db, norm, now, later, n - 1);
      SameBlockHosts(db, norm, now, later, db.profiles[n - 1].id);
    }
  }

  /** Skipping a render while the signature stays the same is sound: the render would have produced the same blocks and
      the same hosts files. */
  lemma EqualSignatureEqualRender(db: Database, norm: Normalizer, now: Instant, later: Instant)
    requires Distinct(PauseKeys(db)) && Distinct(TrialKeys(db))
    requires Delimited(Tokens(db, now)) == Delimited(Tokens(db, later))
    ensures Render(db, norm, now) == Render(db, norm, later)
  {
    SignatureTells(db, now, later);
    forall i | 0 <= i < |db.profiles|
      ensures BlockHosts(db, norm, now, db.profiles[i].id) == BlockHosts(db, norm, later, db.profiles[i].id)
    {
      SameBlockHosts(db, norm, now, later, db.profiles[i].id);
    }
    assert Renderable(db, norm, now) <==> Renderable(db, norm, later);
    SamePauses(db, db.pauses, now, later);
    if Renderable(db, norm, now) {
      SameHostsFiles(db, norm, now, later, |db.profiles|);
    }
  }
}
