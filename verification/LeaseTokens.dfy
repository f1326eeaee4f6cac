/**
 Signed lease tokens (pkg/jobdb/runtime/remote/lease_token.go).  A token is a record; its
 signature is taken to be unforgeable.  Times and durations are integers in nanoseconds.
 */
module LeaseTokens {
  import opened Retry
  import opened JobTable

  const SECOND := 1_000_000_000
  const TOKEN_TTL := 30 * SECOND
  const SKEW := 100_000_000

  datatype Token = Token(key: JobKey, id: string, worker: string, seconds: int, exp: int, expNs: int)

  /** A lease expiry of 0 is the zero time: the lease did not say when it ends. */
  function TokenExpiry(now: int, leaseExpires: int, fallback: int): int {
    var ttl := if fallback <= 0 then TOKEN_TTL else fallback;
    if leaseExpires == 0 then now + ttl
    else if leaseExpires <= now then now
    else
      var remaining := leaseExpires - now;
      var skew := if remaining <= 2 * SKEW then (if remaining / 10 <= 0 then 1 else remaining / 10) else SKEW;
      if leaseExpires - skew < now then now else leaseExpires - skew
  }

  function Mint(key: JobKey, id: string, worker: string, leaseExpires: int, ttl: int, now: int): Token {
    var fallback := if ttl <= 0 then TOKEN_TTL else ttl;
    var left := if leaseExpires != 0 && leaseExpires > now then leaseExpires - now else fallback;
    var expires := TokenExpiry(now, leaseExpires, fallback);
    Token(key, id, worker, (left + SECOND - 1) / SECOND, expires / SECOND, expires)
  }

  function ExpiresAt(t: Token): int {
    if t.expNs > 0 then t.expNs else t.exp * SECOND
  }

  function Duration(t: Token): (d: int)
    ensures d > 0
  {
    if t.seconds <= 0 then TOKEN_TTL else t.seconds * SECOND
  }

  predicate Validates(t: Token, key: JobKey, id: string, now: int) {
    && t.key.tenant != "" && t.key.job != "" && t.id != "" && t.exp != 0
    && t.key == key && t.id == id
    && now < ExpiresAt(t)
  }

  /** For a live lease the token expires strictly before the lease and not before now; for an
      expired one it is dead on arrival. */
  lemma TokenExpiryIsBracketed(now: int, leaseExpires: int, fallback: int)
    requires now > 0 && leaseExpires != 0
    ensures leaseExpires > now ==> now <= TokenExpiry(now, leaseExpires, fallback) < leaseExpires
    ensures leaseExpires <= now ==> TokenExpiry(now, leaseExpires, fallback) == now
  {
  }

  /** A live token ends well before its lease: by a tenth of what is left, or 100 ms. */
  lemma TokenKeepsItsDistance(now: int, leaseExpires: int, fallback: int)
    requires leaseExpires > now > 0
    ensures
      var margin := leaseExpires - TokenExpiry(now, leaseExpires, fallback);
      margin ==
        if leaseExpires - now > 200_000_000 then 100_000_000
        else if leaseExpires - now < 10 then 1
        else (leaseExpires - now) / 10
    ensures TokenExpiry(now, 0, fallback) == now + if fallback > 0 then fallback else 30_000_000_000
  {
  }

  /** A token names its duration in whole seconds, rounded up: what is left of a live lease, and else the
      time asked for, or 30 seconds. */
  lemma MintedSeconds(key: JobKey, id: string, worker: string, leaseExpires: int, ttl: int, now: int)
    requires now > 0
    ensures
      var s := Mint(key, id, worker, leaseExpires, ttl, now).seconds;
      var left := if leaseExpires > now then leaseExpires - now else if ttl > 0 then ttl else 30_000_000_000;
      (s - 1) * 1_000_000_000 < left <= s * 1_000_000_000
  {
  }

  /** The duration in a token is what was left of the lease, rounded up to a second. */
  lemma DurationCovers(key: JobKey, id: string, worker: string, leaseExpires: int, ttl: int, now: int)
    requires now > 0 && leaseExpires > now
    ensures
      var d := Duration(Mint(key, id, worker, leaseExpires, ttl, now));
      leaseExpires - now <= d < leaseExpires - now + SECOND && d % SECOND == 0
  {
    var left := leaseExpires - now;
    var s := (left + SECOND - 1) / SECOND;
    assert s * SECOND <= left + SECOND - 1 < s * SECOND + SECOND;
    assert s >= 1;
  }

  lemma MintedExpiry(key: JobKey, id: string, worker: string, leaseExpires: int, ttl: int, now: int)
    requires now >= SECOND && leaseExpires != 0
    ensures
      var t := Mint(key, id, worker, leaseExpires, ttl, now);
      ExpiresAt(t) == TokenExpiry(now, leaseExpires, if ttl <= 0 then TOKEN_TTL else ttl) && t.exp != 0
  {
    TokenExpiryIsBracketed(now, leaseExpires, if ttl <= 0 then TOKEN_TTL else ttl);
  }

  /** A token just made is the lease's own: it validates for that job and that lease and for no other,
      until a moment before the lease ends; without an end to go by, for the time asked, or for 30
      seconds. */
  lemma MintedTokenValidates(key: JobKey, id: string, worker: string, leaseExpires: int, ttl: int, now: int,
      other: JobKey, lease: string, later: int)
    requires now >= SECOND && key.tenant != "" && key.job != "" && id != ""
    ensures
      var t := Mint(key, id, worker, leaseExpires, ttl, now);
      && t.key == key && t.id == id && t.worker == worker
      && (Validates(t, other, lease, later) ==> other == key && lease == id)
      && (leaseExpires == 0 ==>
            (Validates(t, key, id, later) <==> later < now + if ttl > 0 then ttl else 30_000_000_000))
      && (leaseExpires > now ==> Validates(t, key, id, now) || leaseExpires == now + 1)
      && (leaseExpires > now ==> !Validates(t, key, id, leaseExpires))
      && (0 < leaseExpires <= now ==> !Validates(t, key, id, now))
  {
    if leaseExpires != 0 {
      MintedExpiry(key, id, worker, leaseExpires, ttl, now);
      TokenExpiryIsBracketed(now, leaseExpires, if ttl <= 0 then TOKEN_TTL else ttl);
    }
  }

  /** A token that lacks a name, or that no clock can have expired, is no token. */
  lemma MalformedTokensFail(t: Token, key: JobKey, id: string, now: int)
    requires t.key.tenant == "" || t.key.job == "" || t.id == "" || t.exp == 0
    ensures !Validates(t, key, id, now)
  {
  }

  /** What a token asks for in a renewal: its whole seconds, or 30 seconds. */
  lemma RenewalAsksFor(t: Token)
    ensures Duration(t) == if t.seconds > 0 then t.seconds * 1_000_000_000 else 30 * 1_000_000_000
    ensures t.expNs > 0 ==> ExpiresAt(t) == t.expNs
    ensures t.expNs <= 0 ==> ExpiresAt(t) == t.exp * 1_000_000_000
  {
  }
}

/**
 A remote worker that renews its lease through the server, beside every other event of the job
 table.  A renewal is three steps: the server checks the token, renews the row, and mints a new
 token from the new expiry.  The answer may be lost; the client then still holds its older token.
 */
module TokenRuns {
  import opened Retry
  import opened JobTable
  import opened LeaseRuns
  import opened LeaseTokens

  /** `minted` are all tokens ever made for this lease, `newest` the one the client would send,
      `waiting` a row update whose token is not minted yet, `since` the end of its last step. */
  datatype Client = Client(
    w: World, key: JobKey, id: string, worker: string,
    minted: set<Token>, newest: Option<Token>, waiting: Option<(int, int)>, since: nat, released: bool)

  datatype Act =
    | Other(e: Event, at: nat)
    | Renew(checked: nat, started: nat, at: nat)
    | MintToken(at: nat, delivered: bool)

  predicate Releases(e: Event, key: JobKey, id: string) {
    || ((e.Cancel? || e.Resume?) && e.key == key)
    || ((e.Archive? || e.Reschedule?) && e.key == key && e.id == id)
  }

  /** The table event a renewal makes. */
  function RenewalOf(c: Client, started: nat): Event
    requires c.newest.Some?
  {
    KeepAlive(c.key, c.id, c.worker, Duration(c.newest.value), started)
  }

  predicate Allowed(c: Client, a: Act) {
    match a
    case Other(e, at) => Accepted(c.w, e, at) && !(e.KeepAlive? && e.key == c.key && e.id == c.id)
    case Renew(checked, started, at) =>
      && c.waiting.None? && c.newest.Some? && c.since <= checked <= started <= at
      && Validates(c.newest.value, c.key, c.id, checked)
      && Accepted(c.w, RenewalOf(c, started), at)
    case MintToken(at, _) => c.waiting.Some? && at >= c.w.now
  }

  function Do(c: Client, a: Act): Client {
    if !Allowed(c, a) then c
    else match a
      case Other(e, at) => c.(w := Step(c.w, e, at), released := c.released || Releases(e, c.key, c.id))
      case Renew(_, started, at) =>
        var d := Duration(c.newest.value);
        c.(w := Step(c.w, RenewalOf(c, started), at), waiting := Some((started + LeaseDuration(d), d)), since := at)
      case MintToken(at, delivered) =>
        var t := Mint(c.key, c.id, c.worker, c.waiting.value.0, c.waiting.value.1, at);
        c.(w := c.w.(now := at), minted := c.minted + {t}, waiting := None, since := at,
           newest := if delivered then Some(t) else c.newest)
  }

  function DoAll(c: Client, acts: seq<Act>): Client
    decreases |acts|
  {
    if acts == [] then c else DoAll(Do(c, acts[0]), acts[1..])
  }

  lemma {:induction false} ActsGoOn(c: Client, acts: seq<Act>, a: Act)
    ensures DoAll(c, acts + [a]) == Do(DoAll(c, acts), a)
    decreases |acts|
  {
    if acts == [] {
      assert acts + [a] == [a] && [a][1..] == [];
      assert DoAll(Do(c, a), []) == Do(c, a);
    } else {
      assert (acts + [a])[1..] == acts[1..] + [a];
      ActsGoOn(Do(c, acts[0]), acts[1..], a);
    }
  }

  /** The client's lease is given up: the job is cancelled or resumed, or completed or rescheduled under
      this very lease. */
  predicate GivesUp(a: Act, key: JobKey, id: string) {
    && a.Other? && !a.e.Append? && a.e.key == key
    && (a.e.Cancel? || a.e.Resume? || (a.e.Archive? && a.e.id == id) || (a.e.Reschedule? && a.e.id == id))
  }

  /** A lease counts as released only by an act that gives it up, and by every such act that succeeds. */
  lemma {:induction false} ReleasedOnlyByGivingUp(c: Client, acts: seq<Act>)
    requires !c.released && forall i :: 0 <= i < |acts| ==> !GivesUp(acts[i], c.key, c.id)
    ensures !DoAll(c, acts).released && DoAll(c, acts).key == c.key && DoAll(c, acts).id == c.id
    decreases |acts|
  {
    if acts == [] {
    } else {
      ReleasedOnlyByGivingUp(Do(c, acts[0]), acts[1..]);
    }
  }

  lemma GivingUpReleases(c: Client, a: Act)
    requires Allowed(c, a) && GivesUp(a, c.key, c.id)
    ensures Do(c, a).released
  {
  }

  /** When the steps can happen: a renewal with the token in hand, checked first, started next and stored
      last; the making of a token after a renewal; and any other event that the table accepts. */
  lemma StepsCanHappen(c: Client, e: Event, checked: nat, started: nat, at: nat, delivered: bool)
    ensures Allowed(c, Renew(checked, started, at)) <==>
      && c.waiting == None && c.newest.Some? && checked >= c.since && started >= checked && at >= started
      && Validates(c.newest.value, c.key, c.id, checked)
      && at >= c.w.now && c.key in c.w.table && LeaseHolds(c.w.table[c.key], c.id, c.worker, at)
    ensures Allowed(c, MintToken(at, delivered)) <==> c.waiting != None && c.w.now <= at
    ensures Allowed(c, Other(e, at)) ==> Accepted(c.w, e, at)
    ensures Accepted(c.w, e, at) && !e.KeepAlive? ==> Allowed(c, Other(e, at))
  {
  }

  /** The three steps of a renewal and what each leaves: the row's new end waits for a token; the token
      made of it is kept, and becomes the client's if the answer arrives. */
  lemma RenewalSteps(c: Client, checked: nat, started: nat, at: nat, delivered: bool)
    ensures Allowed(c, Renew(checked, started, at)) ==>
      var d := Do(c, Renew(checked, started, at));
      && c.newest.Some? && d == c.(w := d.w, waiting := d.waiting, since := at)
      && c.key in d.w.table && d.waiting.Some? && d.w.table[c.key].leaseExpires == Some(d.waiting.value.0)
      && d.waiting.value == (started + Duration(c.newest.value), Duration(c.newest.value))
    ensures Allowed(c, MintToken(at, delivered)) ==>
      var d := Do(c, MintToken(at, delivered));
      var t := Mint(c.key, c.id, c.worker, c.waiting.value.0, c.waiting.value.1, at);
      && d.minted == c.minted + {t} && d.newest == (if delivered then Some(t) else c.newest)
      && d.waiting == None && d.since == d.w.now == at && d.w.table == c.w.table && d.released == c.released
  {
  }

  /** A client as it is when the server has just granted it the lease. */
  ghost predicate JustGranted(c: Client, duration: int) {
    && c.w.now >= SECOND && c.since == c.w.now && c.id != "" && c.worker != "" && c.id in c.w.issued
    && c.key.tenant != "" && c.key.job != ""
    && c.minted == {} && c.newest.None? && !c.released
    && c.key in c.w.table
    && var row := c.w.table[c.key];
       && row.archivedAt.None? && row.leaseId == Some(c.id) && row.leaseWorker == Some(c.worker)
       && row.leaseExpires == Some(c.w.now + LeaseDuration(duration))
       && c.waiting == Some((c.w.now + LeaseDuration(duration), duration))
  }

  /** Either lease path starts such a client. */
  lemma GrantStartsAClient(w: World, e: Event, at: nat)
    requires Grants(e) && Accepted(w, e, at) && at >= SECOND && e.key.tenant != "" && e.key.job != ""
    ensures JustGranted(Client(Step(w, e, at), e.key, e.id, e.worker, {}, None,
                               Some((at + LeaseDuration(e.duration), e.duration)), at, false), e.duration)
  {
  }

  /** Every token ends before `limit` or is over already. */
  ghost predicate TokensEnd(c: Client, limit: int) {
    forall t :: t in c.minted ==> ExpiresAt(t) < limit || ExpiresAt(t) <= c.w.now
  }

  /** The row still shows the lease. */
  ghost predicate Shown(c: Client) {
    && c.key in c.w.table
    && var row := c.w.table[c.key];
       && row.archivedAt.None? && row.leaseId == Some(c.id) && row.leaseWorker == Some(c.worker)
       && row.leaseExpires.Some?
       && TokensEnd(c, row.leaseExpires.value)
       && (c.waiting.Some? ==> c.waiting.value.0 == row.leaseExpires.value)
       && (c.newest.Some? ==> row.leaseExpires.value <= c.since + Duration(c.newest.value))
  }

  /** Another worker took the job over after the lease had run out. */
  ghost predicate Superseded(c: Client) {
    && c.key in c.w.table && c.w.table[c.key].leaseId != Some(c.id)
    && TokensEnd(c, 0) && (c.waiting.Some? ==> c.waiting.value.0 <= c.w.now)
  }

  ghost predicate ClientKept(c: Client) {
    && c.w.now >= SECOND && c.since <= c.w.now && c.id != "" && c.worker != "" && c.id in c.w.issued
    && (c.waiting.Some? ==> c.waiting.value.0 != 0)
    && (c.released || Shown(c) || Superseded(c))
  }

  lemma OtherKeeps(c: Client, e: Event, at: nat)
    requires ClientKept(c) && Allowed(c, Other(e, at))
    ensures ClientKept(Do(c, Other(e, at)))
  {
    var c' := Do(c, Other(e, at));
    if !c'.released {
      if Shown(c) {
        if Grants(e) && e.key == c.key {
          assert Superseded(c');
        } else {
          assert c'.w.table[c.key].leaseExpires == c.w.table[c.key].leaseExpires;
          assert Shown(c');
        }
      } else {
        assert Superseded(c');
      }
    }
  }

  lemma RenewKeeps(c: Client, checked: nat, started: nat, at: nat)
    requires ClientKept(c) && Allowed(c, Renew(checked, started, at))
    ensures ClientKept(Do(c, Renew(checked, started, at)))
    ensures
      var renewed := Do(c, Renew(checked, started, at)).w.table;
      c.released || (Shown(c) && c.w.table[c.key].leaseExpires.value <= renewed[c.key].leaseExpires.value)
  {
  }

  lemma MintKeeps(c: Client, at: nat, delivered: bool)
    requires ClientKept(c) && Allowed(c, MintToken(at, delivered))
    ensures ClientKept(Do(c, MintToken(at, delivered)))
  {
    var (expires, ttl) := c.waiting.value;
    var c' := Do(c, MintToken(at, delivered));
    var t := Mint(c.key, c.id, c.worker, expires, ttl, at);
    MintedExpiry(c.key, c.id, c.worker, expires, ttl, at);
    TokenExpiryIsBracketed(at, expires, if ttl <= 0 then TOKEN_TTL else ttl);
    if expires > at { DurationCovers(c.key, c.id, c.worker, expires, ttl, at); }
    if !c.released {
      if Shown(c) {
        assert Shown(c');
      } else {
        assert Superseded(c');
      }
    }
  }

  lemma ActKeeps(c: Client, a: Act)
    requires ClientKept(c)
    ensures ClientKept(Do(c, a))
  {
    if Allowed(c, a) {
      match a
      case Other(e, at) => OtherKeeps(c, e, at);
      case Renew(checked, started, at) => RenewKeeps(c, checked, started, at);
      case MintToken(at, delivered) => MintKeeps(c, at, delivered);
    }
  }

  lemma {:induction false} ActsKeep(c: Client, acts: seq<Act>)
    requires ClientKept(c)
    ensures ClientKept(DoAll(c, acts))
    decreases |acts|
  {
    if acts == [] {
    } else {
      ActKeeps(c, acts[0]);
      ActsKeep(Do(c, acts[0]), acts[1..]);
    }
  }

  /** Whenever any token of the lease still validates, the row still holds the lease unexpired,
      unless the lease was explicitly released. */
  lemma ValidTokenMeansHeldLease(c: Client, duration: int, acts: seq<Act>, t: Token, now: nat)
    requires JustGranted(c, duration)
    requires t in DoAll(c, acts).minted && now >= DoAll(c, acts).w.now
    requires Validates(t, DoAll(c, acts).key, DoAll(c, acts).id, now)
    ensures
      var d := DoAll(c, acts);
      d.released || (d.key in d.w.table && LeaseHolds(d.w.table[d.key], d.id, d.worker, now))
  {
    assert ClientKept(c);
    ActsKeep(c, acts);
  }

  /** A renewal with the newest token never moves the row's expiry earlier, even after answers
      were lost. */
  lemma RenewalNeverShortensTheLease(c: Client, duration: int, acts: seq<Act>, checked: nat, started: nat, at: nat)
    requires JustGranted(c, duration)
    requires Allowed(DoAll(c, acts), Renew(checked, started, at)) && !DoAll(c, acts).released
    ensures
      var d := DoAll(c, acts);
      var d' := Do(d, Renew(checked, started, at));
      && d.key in d.w.table && d.key in d'.w.table
      && d.w.table[d.key].leaseExpires.Some? && d'.w.table[d.key].leaseExpires.Some?
      && d.w.table[d.key].leaseExpires.value <= d'.w.table[d.key].leaseExpires.value
  {
    assert ClientKept(c);
    ActsKeep(c, acts);
    RenewKeeps(DoAll(c, acts), checked, started, at);
  }

  /** The client's token leaves room: what it may renew for reaches past its own end, and so does
      an update whose token is still to come. */
  ghost predicate Roomy(c: Client) {
    && (c.newest.Some? ==> ExpiresAt(c.newest.value) + SKEW <= c.since + Duration(c.newest.value))
    && (c.newest.Some? && c.waiting.Some? ==> ExpiresAt(c.newest.value) + SKEW <= c.waiting.value.0)
  }

  ghost predicate NoShorter(before: Client, after: Client) {
    before.newest.Some? ==> after.newest.Some? && ExpiresAt(before.newest.value) <= ExpiresAt(after.newest.value)
  }

  lemma ActStaysRoomy(c: Client, a: Act)
    requires ClientKept(c) && Roomy(c)
    ensures Roomy(Do(c, a)) && NoShorter(c, Do(c, a))
  {
    hide Accepted, Step, Shown, Superseded;
    if Allowed(c, a) && a.MintToken? {
      var (expires, ttl) := c.waiting.value;
      MintedExpiry(c.key, c.id, c.worker, expires, ttl, a.at);
      TokenIsRoomy(c.key, c.id, c.worker, expires, ttl, a.at);
    }
  }

  /** A fresh token ends at least 100 ms before its duration would from now, and at most 100 ms
      before its lease. */
  lemma TokenIsRoomy(key: JobKey, id: string, worker: string, leaseExpires: int, ttl: int, now: int)
    requires now >= SECOND && leaseExpires != 0
    ensures
      var t := Mint(key, id, worker, leaseExpires, ttl, now);
      leaseExpires - SKEW <= ExpiresAt(t) && ExpiresAt(t) + SKEW <= now + Duration(t)
  {
    MintedExpiry(key, id, worker, leaseExpires, ttl, now);
    if leaseExpires > now {
      TokenKeepsItsDistance(now, leaseExpires, if ttl <= 0 then TOKEN_TTL else ttl);
      DurationCovers(key, id, worker, leaseExpires, ttl, now);
    } else {
      var left := if ttl <= 0 then TOKEN_TTL else ttl;
      assert (left + SECOND - 1) / SECOND >= 1;
    }
  }

  lemma {:induction false} ActsStayRoomy(c: Client, acts: seq<Act>)
    requires ClientKept(c) && Roomy(c)
    ensures Roomy(DoAll(c, acts)) && NoShorter(c, DoAll(c, acts))
    decreases |acts|
  {
    if acts == [] {
    } else {
      ActKeeps(c, acts[0]);
      ActStaysRoomy(c, acts[0]);
      ActsStayRoomy(Do(c, acts[0]), acts[1..]);
    }
  }

  /** From one moment of a client's life to any later one, whatever answers were lost, its token
      never ends earlier than the token it had. */
  lemma RenewalNeverShortensTheToken(c: Client, duration: int, acts: seq<Act>, more: seq<Act>)
    requires JustGranted(c, duration)
    ensures NoShorter(DoAll(c, acts), DoAll(DoAll(c, acts), more))
  {
    assert ClientKept(c);
    ActsKeep(c, acts);
    ActsStayRoomy(c, acts);
    ActsStayRoomy(DoAll(c, acts), more);
  }
}
