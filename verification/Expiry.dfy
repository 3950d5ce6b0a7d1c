/** TTL and expiry arithmetic of path-role.go, path-creds.go and of the CalculateTTL they call.
    Times and durations are in nanoseconds. */
module Expiry {
  import opened Records
  import opened Operations

  const SECOND := 1_000_000_000
  const HOUR := 3600 * SECOND
  const DAY := 24 * HOUR

  /** Two's complement wrap-around of 64 bits, which time.Duration arithmetic is subject to. */
  function Wrap64(n: int): int {
    (n + 0x8000_0000_0000_0000) % 0x1_0000_0000_0000_0000 - 0x8000_0000_0000_0000
  }

  function GetDefaultTTL(r: RoleRecord): int { Wrap64(r.defaultTTL * SECOND) }
  function GetMaxTTL(r: RoleRecord): int { Wrap64(r.maxTTL * SECOND) }

  /** A TTL in seconds is the duration meant exactly when its nanoseconds fit 64 bits: up to some 292 years either
      way. */
  lemma TTLExact(r: RoleRecord)
    ensures GetDefaultTTL(r) == r.defaultTTL * SECOND <==> -9_223_372_036 <= r.defaultTTL <= 9_223_372_036
    ensures GetMaxTTL(r) == r.maxTTL * SECOND <==> -9_223_372_036 <= r.maxTTL <= 9_223_372_036
  {
    WrapExact(r.defaultTTL * SECOND);
    WrapExact(r.maxTTL * SECOND);
  }

  lemma WrapExact(n: int)
    ensures Wrap64(n) == n <==> -0x8000_0000_0000_0000 <= n < 0x8000_0000_0000_0000
  {}

  /** Time.Truncate(time.Second), and what formatting an expiry into SQL does. */
  function Truncated(t: int): int { t / SECOND * SECOND }

  lemma TruncatedBounds(t: int)
    ensures t - SECOND < Truncated(t) <= t && Truncated(t) == t - t % SECOND
  {}

  lemma TruncatedWhole(t: int, d: int)
    requires d % SECOND == 0
    ensures Truncated(t + d) == Truncated(t) + d
  {}

  /** The mount's lease limits. */
  datatype SystemView = SystemView(defaultLeaseTTL: int, maxLeaseTTL: int)

  /** The most restrictive maximum. */
  function EffectiveMax(sys: SystemView, backendMaxTTL: int, explicitMaxTTL: int): int {
    var m := if 0 < backendMaxTTL < sys.maxLeaseTTL then backendMaxTTL else sys.maxLeaseTTL;
    if 0 < explicitMaxTTL < m then explicitMaxTTL else m
  }

  /** framework.CalculateTTL without a period, which is how it is called; None where it returns an error.
      No start time stands for the zero time. */
  function CalculateTTL(sys: SystemView, increment: int, backendTTL: int, backendMaxTTL: int, explicitMaxTTL: int,
                        startTime: Option<int>, time: int): Option<int> {
    var now := Truncated(time);
    var start := if startTime.Some? then Truncated(startTime.value) else now;
    var maxTTL := EffectiveMax(sys, backendMaxTTL, explicitMaxTTL);
    var ttl := if increment > 0 then increment else if backendTTL > 0 then backendTTL else sys.defaultLeaseTTL;
    var maxValidTTL := start + maxTTL - now;
    if maxTTL <= 0 || maxValidTTL < 0 then None
    else if maxValidTTL < ttl then Some(maxValidTTL)
    else Some(ttl)
  }

  function Min(a: int, b: int): int { if a < b then a else b }

  /** What is asked for: a positive increment before the backend's default, that before the mount's. */
  function Asked(sys: SystemView, increment: int, backendTTL: int): int {
    if increment > 0 then increment else if backendTTL > 0 then backendTTL else sys.defaultLeaseTTL
  }

  /** There is a TTL exactly while the cap is positive and not past; it is what was asked for, cut to what is left below
      the cap, all to the second. */
  lemma TTLGranted(sys: SystemView, increment: int, backendTTL: int, backendMaxTTL: int, explicitMaxTTL: int,
                   startTime: int, time: int)
    ensures var ttl := CalculateTTL(sys, increment, backendTTL, backendMaxTTL, explicitMaxTTL, Some(startTime), time);
      var cap := EffectiveMax(sys, backendMaxTTL, explicitMaxTTL);
      && (ttl.Some? <==> cap > 0 && Truncated(time) <= Truncated(startTime) + cap)
      && (ttl.Some? ==>
            ttl.value == Min(Asked(sys, increment, backendTTL), Truncated(startTime) + cap - Truncated(time)))
      && (cap <= sys.maxLeaseTTL) && (cap in {sys.maxLeaseTTL, backendMaxTTL, explicitMaxTTL})
      && (backendMaxTTL > 0 ==> cap <= backendMaxTTL) && (explicitMaxTTL > 0 ==> cap <= explicitMaxTTL)
  {}

  /** The moments of one call: when the handler computed the TTL, when it formatted the expiry, when Vault computed the
      lease's TTL anew from the handler's answer, when it granted the lease. */
  datatype Clock = Clock(asked: int, formatted: int, recomputed: int, granted: int) {
    predicate Valid() { asked <= formatted <= recomputed <= granted }
    function Lag(): int { formatted - asked }
  }

  /** The TTL secretCredsCreate tells the server. */
  function CreateTTL(sys: SystemView, r: RoleRecord, clock: Clock): Option<int> {
    CalculateTTL(sys, 0, GetDefaultTTL(r), GetDefaultTTL(r), 0, None, clock.asked)
  }

  function CreateCap(sys: SystemView, r: RoleRecord): int { EffectiveMax(sys, GetDefaultTTL(r), 0) }

  function RenewTTL(sys: SystemView, increment: int, r: RoleRecord, issued: int, clock: Clock): Option<int> {
    CalculateTTL(sys, increment, GetDefaultTTL(r), GetMaxTTL(r), GetMaxTTL(r), Some(issued), clock.asked)
  }

  function RenewCap(sys: SystemView, r: RoleRecord): int { EffectiveMax(sys, GetMaxTTL(r), GetMaxTTL(r)) }

  function CreatedUntil(clock: Clock, ttl: int): int { Truncated(clock.formatted + ttl) }

  /** A renewal adds five seconds. */
  function RenewedUntil(clock: Clock, ttl: int): int { Truncated(clock.formatted + ttl + 5 * SECOND) }

  // What Vault does with the answer: it computes the TTL again, under the mount's and the role's maximum.

  function CreateGrant(sys: SystemView, r: RoleRecord, clock: Clock): Option<int> {
    CalculateTTL(sys, 0, GetDefaultTTL(r), GetMaxTTL(r), 0, None, clock.recomputed)
  }

  function RenewGrant(sys: SystemView, increment: int, r: RoleRecord, ttl: int, issued: int, clock: Clock): Option<int>
  {
    CalculateTTL(sys, increment, ttl, GetMaxTTL(r), 0, Some(issued), clock.recomputed)
  }

  lemma CreateWithinCap(sys: SystemView, r: RoleRecord, clock: Clock)
    ensures CreateTTL(sys, r, clock).Some? <==> CreateCap(sys, r) > 0
    ensures CreateTTL(sys, r, clock).Some? ==> CreateTTL(sys, r, clock).value <= CreateCap(sys, r)
    ensures CreateCap(sys, r) == if GetDefaultTTL(r) > 0 then Min(GetDefaultTTL(r), sys.maxLeaseTTL)
      else sys.maxLeaseTTL
  {}

  lemma RenewWithinCap(sys: SystemView, increment: int, r: RoleRecord, issued: int, clock: Clock)
    ensures var ttl := RenewTTL(sys, increment, r, issued, clock);
      ttl.Some? ==> Truncated(clock.asked) + ttl.value <= Truncated(issued) + RenewCap(sys, r)
    ensures RenewCap(sys, r) == if GetMaxTTL(r) > 0 then Min(GetMaxTTL(r), sys.maxLeaseTTL) else sys.maxLeaseTTL
  {
    TTLGranted(sys, increment, GetDefaultTTL(r), GetMaxTTL(r), GetMaxTTL(r), issued, clock.asked);
  }

  // A creation.

  /** The lease of a creation never exceeds what the login was given, and falls short of it exactly when the role has a
      maximum below. The login outlives the lease exactly when granting took no longer than that difference, less what
      cutting to the second lost. */
  lemma CreationCoversLease(sys: SystemView, r: RoleRecord, clock: Clock)
    requires clock.Valid() && 0 < sys.maxLeaseTTL
    ensures CreateTTL(sys, r, clock).Some? && CreateGrant(sys, r, clock).Some?
    ensures var login, lease := CreateTTL(sys, r, clock).value, CreateGrant(sys, r, clock).value;
      && login == Min(Asked(sys, 0, GetDefaultTTL(r)), sys.maxLeaseTTL)
      && lease == (if GetMaxTTL(r) > 0 then Min(login, GetMaxTTL(r)) else login)
      && (CreatedUntil(clock, login) >= clock.granted + lease <==>
          clock.granted - clock.formatted <= login - lease - (clock.formatted + login) % SECOND)
  {
    TruncatedBounds(clock.formatted + CreateTTL(sys, r, clock).value);
  }

  /** Without a role maximum below the default nothing is to spare: the login outlives the lease only if granting took
      no time at all and the expiry is a whole second. */
  lemma NothingToSpare(sys: SystemView, r: RoleRecord, clock: Clock)
    requires clock.Valid() && 0 < sys.maxLeaseTTL
    requires GetMaxTTL(r) <= 0 || CreateTTL(sys, r, clock).value <= GetMaxTTL(r)
    ensures var login, lease := CreateTTL(sys, r, clock).value, CreateGrant(sys, r, clock).value;
      CreatedUntil(clock, login) >= clock.granted + lease <==>
        clock.granted == clock.formatted && (clock.formatted + login) % SECOND == 0
  {
    CreationCoversLease(sys, r, clock);
  }

  /** An hour's lease, issued half a second past the second: the login expires half a second before the lease. */
  lemma CreationFallsShort()
    ensures var sys, r := SystemView(DAY, DAY), RoleRecord(0, 3600, [], []);
      var clock := Clock(SECOND / 2, SECOND / 2, SECOND / 2, SECOND / 2);
      && CreateTTL(sys, r, clock) == CreateGrant(sys, r, clock) == Some(HOUR)
      && CreatedUntil(clock, HOUR) == clock.granted + HOUR - SECOND / 2
  {
    assert GetDefaultTTL(RoleRecord(0, 3600, [], [])) == HOUR;
  }

  // A renewal.

  /** The second computation of a renewal's TTL gives the first one, cut once more to what is left below the cap by
      then. */
  lemma GrantIsTTL(sys: SystemView, increment: int, r: RoleRecord, issued: int, clock: Clock)
    requires clock.Valid() && RenewTTL(sys, increment, r, issued, clock).GetOr(0) > 0
    ensures var ttl := RenewTTL(sys, increment, r, issued, clock).value;
      var left := Truncated(issued) + RenewCap(sys, r) - Truncated(clock.recomputed);
      RenewGrant(sys, increment, r, ttl, issued, clock) == if left >= 0 then Some(Min(ttl, left)) else None
  {
    var ttl, m := RenewTTL(sys, increment, r, issued, clock).value, GetMaxTTL(r);
    TTLGranted(sys, increment, GetDefaultTTL(r), m, m, issued, clock.asked);
    TTLGranted(sys, increment, ttl, m, 0, issued, clock.recomputed);
    TruncatedGrows(clock.asked, clock.recomputed);
  }

  lemma TruncatedGrows(a: int, b: int)
    requires a <= b
    ensures Truncated(a) <= Truncated(b)
  {}

  /** After a renewal the login outlives the lease exactly when granting took no longer than what cutting left of the
      five seconds, plus what the lease lost to the cap in the second computation. Four seconds are always there. */
  lemma RenewalCoversLease(sys: SystemView, increment: int, r: RoleRecord, issued: int, clock: Clock)
    requires clock.Valid() && RenewTTL(sys, increment, r, issued, clock).GetOr(0) > 0
    requires var ttl := RenewTTL(sys, increment, r, issued, clock).value;
      RenewGrant(sys, increment, r, ttl, issued, clock).Some?
    ensures var ttl := RenewTTL(sys, increment, r, issued, clock).value;
      var lease := RenewGrant(sys, increment, r, ttl, issued, clock).value;
      && lease <= ttl
      && (RenewedUntil(clock, ttl) >= clock.granted + lease <==>
          clock.granted - clock.formatted <= 5 * SECOND + (ttl - lease) - (clock.formatted + ttl) % SECOND)
      && (clock.granted - clock.formatted <= 4 * SECOND ==> RenewedUntil(clock, ttl) >= clock.granted + lease)
  {
    GrantIsTTL(sys, increment, r, issued, clock);
    var ttl := RenewTTL(sys, increment, r, issued, clock).value;
    TruncatedBounds(clock.formatted + ttl);
    TruncatedWhole(clock.formatted + ttl, 5 * SECOND);
  }

  /** Where a renewal leaves the login as it is, Vault grants nothing either. */
  lemma ZeroTTLGrantsNothing(sys: SystemView, increment: int, r: RoleRecord, issued: int, clock: Clock)
    requires clock.Valid() && sys.defaultLeaseTTL > 0 && RenewTTL(sys, increment, r, issued, clock).GetOr(0) <= 0
    ensures RenewGrant(sys, increment, r, RenewTTL(sys, increment, r, issued, clock).GetOr(0), issued, clock).GetOr(0)
      <= 0
  {
    var ttl, m := RenewTTL(sys, increment, r, issued, clock).GetOr(0), GetMaxTTL(r);
    TTLGranted(sys, increment, GetDefaultTTL(r), m, m, issued, clock.asked);
    TTLGranted(sys, increment, ttl, m, 0, issued, clock.recomputed);
    TruncatedGrows(clock.asked, clock.recomputed);
  }

  /** When both computations are cut by a cap in whole seconds, the time between them does not count: exactly when
      granting takes no longer, from the second of Vault's own computation on, than five seconds and the second
      boundaries the handler has seen. */
  lemma CappedRenewalCoversLease(sys: SystemView, increment: int, r: RoleRecord, issued: int, clock: Clock)
    requires clock.Valid() && RenewCap(sys, r) % SECOND == 0 && RenewTTL(sys, increment, r, issued, clock).GetOr(0) > 0
    requires RenewTTL(sys, increment, r, issued, clock).value
      == Truncated(issued) + RenewCap(sys, r) - Truncated(clock.asked)
    requires Truncated(clock.recomputed) <= Truncated(issued) + RenewCap(sys, r)
    ensures var ttl := RenewTTL(sys, increment, r, issued, clock).value;
      && RenewGrant(sys, increment, r, ttl, issued, clock).Some?
      && var lease := RenewGrant(sys, increment, r, ttl, issued, clock).value;
      (RenewedUntil(clock, ttl) >= clock.granted + lease <==>
          clock.granted - Truncated(clock.recomputed)
            <= 5 * SECOND + Truncated(clock.formatted) - Truncated(clock.asked))
  {
    GrantIsTTL(sys, increment, r, issued, clock);
    TruncatedGrows(clock.asked, clock.recomputed);
    var ttl := RenewTTL(sys, increment, r, issued, clock).value;
    WholeLeft(issued, RenewCap(sys, r), clock.asked);
    RenewedWhole(clock, ttl);
  }

  /** A renewal keeps to issue plus cap plus five seconds exactly when formatting time plus TTL still falls in
      the second in which issue plus cap does, or before. */
  lemma RenewalKeepsBound(sys: SystemView, increment: int, r: RoleRecord, issued: int, clock: Clock)
    requires RenewTTL(sys, increment, r, issued, clock).Some?
    ensures var ttl, cap := RenewTTL(sys, increment, r, issued, clock).value, RenewCap(sys, r);
      RenewedUntil(clock, ttl) <= issued + cap + 5 * SECOND <==>
          clock.formatted < Truncated(issued + cap) + SECOND - ttl
  {
    var ttl, cap := RenewTTL(sys, increment, r, issued, clock).value, RenewCap(sys, r);
    TruncatedWhole(clock.formatted + ttl, 5 * SECOND);
    TruncatedBounds(clock.formatted + ttl);
    TruncatedBounds(issued + cap);
  }

  /** For TTLs in whole seconds: exactly when the clock, read once to compute the TTL and once to format the expiry,
      shows the same second both times, or what was asked for still fits below the cap at the second reading. */
  lemma WholeRenewalKeepsBound(sys: SystemView, increment: int, r: RoleRecord, issued: int, clock: Clock)
    requires clock.Valid() && RenewTTL(sys, increment, r, issued, clock).Some?
    requires RenewCap(sys, r) % SECOND == 0 && Asked(sys, increment, GetDefaultTTL(r)) % SECOND == 0
    ensures var ttl, cap := RenewTTL(sys, increment, r, issued, clock).value, RenewCap(sys, r);
      RenewedUntil(clock, ttl) <= issued + cap + 5 * SECOND <==>
        || Truncated(clock.formatted) == Truncated(clock.asked)
        || Truncated(clock.formatted) + Asked(sys, increment, GetDefaultTTL(r)) <= Truncated(issued) + cap
  {
    var asked, cap := Asked(sys, increment, GetDefaultTTL(r)), RenewCap(sys, r);
    var bound := Truncated(issued) + cap;
    TTLGranted(sys, increment, GetDefaultTTL(r), GetMaxTTL(r), GetMaxTTL(r), issued, clock.asked);
    WholeGrant(issued, cap, clock.asked, asked);
    RenewedWhole(clock, Min(asked, bound - Truncated(clock.asked)));
    TruncatedBounds(issued);
    SecondsApart(clock.asked, clock.formatted);
    WholesApart(clock.formatted, asked, issued, cap);
    BoundMet(Truncated(clock.asked), Truncated(clock.formatted), asked, bound, issued + cap);
  }

  lemma RenewedWhole(clock: Clock, ttl: int)
    requires ttl % SECOND == 0
    ensures RenewedUntil(clock, ttl) == Truncated(clock.formatted) + ttl + 5 * SECOND
  {
    TruncatedWhole(clock.formatted, ttl + 5 * SECOND);
  }

  lemma WholeGrant(issued: int, cap: int, time: int, asked: int)
    requires cap % SECOND == 0 && asked % SECOND == 0
    ensures Min(asked, Truncated(issued) + cap - Truncated(time)) % SECOND == 0
  {
    WholeLeft(issued, cap, time);
  }

  lemma WholeLeft(issued: int, cap: int, time: int)
    requires cap % SECOND == 0
    ensures (Truncated(issued) + cap - Truncated(time)) % SECOND == 0
  {}

  lemma WholesApart(t: int, asked: int, issued: int, cap: int)
    requires asked % SECOND == 0 && cap % SECOND == 0
    ensures Truncated(t) + asked <= Truncated(issued) + cap || Truncated(t) + asked >= Truncated(issued) + cap + SECOND
  {
    WholeLeft(issued, cap - asked, t);
  }

  /** The same for times in whole seconds. */
  lemma BoundMet(first: int, second: int, asked: int, bound: int, exact: int)
    requires first == second || first + SECOND <= second
    requires second + asked <= bound || second + asked >= bound + SECOND
    requires bound <= exact < bound + SECOND
    ensures second + Min(asked, bound - first) <= exact <==> first == second || second + asked <= bound
  {}

  /** When the grant is all that is left below a cap in whole seconds: exactly when the clock, read once to compute the
      TTL and once to format the expiry, shows the same second both times. */
  lemma CappedRenewalKeepsBound(sys: SystemView, increment: int, r: RoleRecord, issued: int, clock: Clock)
    requires clock.Valid() && RenewCap(sys, r) % SECOND == 0
    requires RenewTTL(sys, increment, r, issued, clock)
      == Some(Truncated(issued) + RenewCap(sys, r) - Truncated(clock.asked))
    ensures var ttl := RenewTTL(sys, increment, r, issued, clock).value;
      RenewedUntil(clock, ttl) <= issued + RenewCap(sys, r) + 5 * SECOND <==>
        Truncated(clock.formatted) == Truncated(clock.asked)
  {
    var ttl := RenewTTL(sys, increment, r, issued, clock).value;
    TruncatedBounds(issued);
    WholeLeft(issued, RenewCap(sys, r), clock.asked);
    RenewedWhole(clock, ttl);
    SecondsApart(clock.asked, clock.formatted);
  }

  /** Two times are in one second, or their seconds are at least one second apart. */
  lemma SecondsApart(a: int, b: int)
    requires a <= b
    ensures Truncated(a) == Truncated(b) || Truncated(a) + SECOND <= Truncated(b)
  {}

  /** The bound fails with TTLs in whole seconds and a nanosecond between the two readings of the clock. */
  lemma RenewalOverruns()
    ensures var sys, r, clock := SystemView(32 * DAY, 32 * DAY), RoleRecord(3600, 3600, [], []),
                                 Clock(11 * SECOND - 1, 11 * SECOND, 11 * SECOND, 11 * SECOND);
      && RenewCap(sys, r) == HOUR && RenewTTL(sys, 0, r, 0, clock) == Some(3590 * SECOND)
      && RenewedUntil(clock, 3590 * SECOND) == 0 + HOUR + 6 * SECOND
  {
    var r := RoleRecord(3600, 3600, [], []);
    assert GetDefaultTTL(r) == HOUR && GetMaxTTL(r) == HOUR;
  }

  /** What the second reading of the clock and the cutting add to the expiry that was computed. */
  function Overshoot(clock: Clock, ttl: int): int {
    Truncated(clock.formatted + ttl) - (Truncated(clock.asked) + ttl)
  }

  /** How far past issue, to the second, plus cap a renewal may tell the server. */
  function Slack(clock: Clock, ttl: int): int { 5 * SECOND + Overshoot(clock, ttl) }

  /** The bound is met with equality when all that is left is granted. For TTLs in whole seconds the overshoot is the
      number of second boundaries between the two readings; in general it is within a second of the time between
      them. */
  lemma RenewalWithinSlack(clock: Clock, ttl: int, issued: int, cap: int)
    requires clock.Valid() && Truncated(clock.asked) + ttl <= Truncated(issued) + cap
    ensures RenewedUntil(clock, ttl) <= Truncated(issued) + cap + Slack(clock, ttl)
    ensures Truncated(clock.asked) + ttl == Truncated(issued) + cap ==>
      RenewedUntil(clock, ttl) == Truncated(issued) + cap + Slack(clock, ttl)
    ensures ttl % SECOND == 0 ==> Overshoot(clock, ttl) == Truncated(clock.formatted) - Truncated(clock.asked)
    ensures clock.Lag() - SECOND < Overshoot(clock, ttl) < clock.Lag() + SECOND
  {
    TruncatedBounds(clock.asked);
    TruncatedBounds(clock.formatted + ttl);
    TruncatedWhole(clock.formatted + ttl, 5 * SECOND);
    if ttl % SECOND == 0 { TruncatedWhole(clock.formatted, ttl); }
  }
}
