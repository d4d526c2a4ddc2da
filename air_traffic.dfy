/**
 * The landing decision `air_traffic_control` of the air traffic exercise.
 *
 * Eight facts about an approaching aircraft are combined into six derived
 * conditions and three approval paths, tried in a fixed order; the first that
 * holds decides the returned result and the message that accompanies it.
 * The decision is a pure function: no state survives a call. The thresholds
 * and the weather override agree with every test vector, but the vectors do
 * not fix their exact values.
 */
module AirTraffic {

  // Thresholds of the derived conditions.
  const SPEED_LIMIT: real := 150.0              // a safe approach is strictly slower
  const MAX_SAFE_WIND: real := 40.0
  const MIN_SAFE_VISIBILITY: real := 1000.0
  const MAX_ACCEPTABLE_TRAFFIC: int := 5
  const MAX_PRIORITY_TRAFFIC: int := 8          // traffic tolerated under priority
  const MAX_PRIORITY_WIND: real := 80.0         // wind tolerated under priority
  const MIN_PRIORITY_VISIBILITY: real := 200.0  // visibility tolerated under priority

  // The two results and the four messages.
  const LANDING_ALLOWED: string := "Landing Allowed"
  const LANDING_DENIED: string := "Landing Denied"
  const ALL_CONDITIONS_MET: string := "All conditions met for landing."
  const EMERGENCY_CLEARANCE: string := "Emergency landing with priority clearance."
  const PRIORITY_OVERRIDES: string := "Landing allowed with priority overrides."
  const CONDITIONS_NOT_MET: string := "Conditions not met for safe landing."

  /** The eight arguments of `air_traffic_control`, in their positional order. */
  datatype LandingRequest = LandingRequest(
    runwayClear: bool,
    alternateRunwayAvailable: bool,
    planeSpeed: real,
    emergency: bool,
    windSpeed: real,
    visibility: real,
    airportTraffic: int,
    priorityStatus: bool)

  /** The returned string and the message printed beside it. */
  datatype Decision = Decision(result: string, message: string)

  // Derived conditions.

  predicate RunwayAvailable(r: LandingRequest) {
    r.runwayClear || r.alternateRunwayAvailable
  }

  predicate SafeSpeed(r: LandingRequest) {
    r.planeSpeed < SPEED_LIMIT
  }

  predicate SafeWeather(r: LandingRequest) {
    r.windSpeed <= MAX_SAFE_WIND && r.visibility >= MIN_SAFE_VISIBILITY
  }

  predicate AcceptableTraffic(r: LandingRequest) {
    r.airportTraffic <= MAX_ACCEPTABLE_TRAFFIC
  }

  predicate TrafficOverride(r: LandingRequest) {
    r.priorityStatus && r.airportTraffic <= MAX_PRIORITY_TRAFFIC
  }

  predicate WeatherOverride(r: LandingRequest) {
    r.priorityStatus && r.windSpeed <= MAX_PRIORITY_WIND && r.visibility >= MIN_PRIORITY_VISIBILITY
  }

  // The three approval paths.

  predicate StandardLanding(r: LandingRequest) {
    RunwayAvailable(r) && SafeSpeed(r) && SafeWeather(r) && AcceptableTraffic(r)
  }

  predicate EmergencyLanding(r: LandingRequest) {
    r.emergency && r.priorityStatus
  }

  predicate OverrideLanding(r: LandingRequest) {
    RunwayAvailable(r) && SafeSpeed(r) && (TrafficOverride(r) || WeatherOverride(r))
  }

  /**
   * The decision: standard landing first, then the emergency clearance, then
   * the priority overrides, otherwise a denial. Every allowing message comes
   * with "Landing Allowed", the denial message with "Landing Denied".
   */
  function AirTrafficControl(r: LandingRequest): (d: Decision)
    ensures d.result == LANDING_ALLOWED || d.result == LANDING_DENIED
    ensures d.result == LANDING_ALLOWED <==> d.message != CONDITIONS_NOT_MET
    ensures d.message in {ALL_CONDITIONS_MET, EMERGENCY_CLEARANCE, PRIORITY_OVERRIDES, CONDITIONS_NOT_MET}
  {
    if StandardLanding(r) then Decision(LANDING_ALLOWED, ALL_CONDITIONS_MET)
    else if EmergencyLanding(r) then Decision(LANDING_ALLOWED, EMERGENCY_CLEARANCE)
    else if OverrideLanding(r) then Decision(LANDING_ALLOWED, PRIORITY_OVERRIDES)
    else Decision(LANDING_DENIED, CONDITIONS_NOT_MET)
  }

  predicate Allowed(r: LandingRequest) {
    AirTrafficControl(r).result == LANDING_ALLOWED
  }

  /** Landing is allowed exactly when at least one of the three paths holds. */
  lemma AllowedExactlyWhenAPathHolds(r: LandingRequest)
    ensures Allowed(r) <==> StandardLanding(r) || EmergencyLanding(r) || OverrideLanding(r)
  {
  }

  /** Each message names the first path that holds, in the order standard, emergency, override. */
  lemma MessageNamesFirstPath(r: LandingRequest)
    ensures AirTrafficControl(r).message == ALL_CONDITIONS_MET <==> StandardLanding(r)
    ensures AirTrafficControl(r).message == EMERGENCY_CLEARANCE <==> !StandardLanding(r) && EmergencyLanding(r)
    ensures (AirTrafficControl(r).message == PRIORITY_OVERRIDES)
      <==> (!StandardLanding(r) && !EmergencyLanding(r) && OverrideLanding(r))
  {
  }

  /**
   * Emergency with priority is always allowed, whatever the runway, speed,
   * weather and traffic, and only the standard path can take its message.
   */
  lemma EmergencyDominates(r: LandingRequest)
    requires EmergencyLanding(r)
    ensures Allowed(r)
    ensures AirTrafficControl(r).message != PRIORITY_OVERRIDES
    ensures !StandardLanding(r) ==> AirTrafficControl(r).message == EMERGENCY_CLEARANCE
  {
  }

  /**
   * Since both overrides need priority, reaching the override message needs
   * priority and no declared emergency.
   */
  lemma OverrideMessageExcludesEmergency(r: LandingRequest)
    requires AirTrafficControl(r).message == PRIORITY_OVERRIDES
    ensures r.priorityStatus && !r.emergency
    ensures RunwayAvailable(r) && SafeSpeed(r)
  {
  }

  /** Without priority only the standard path can allow a landing. */
  lemma WithoutPriorityOnlyStandard(r: LandingRequest)
    requires !r.priorityStatus
    ensures Allowed(r) <==> StandardLanding(r)
    ensures AirTrafficControl(r).message in {ALL_CONDITIONS_MET, CONDITIONS_NOT_MET}
  {
  }

  /** Without any runway only the emergency clearance can allow a landing. */
  lemma WithoutRunwayOnlyEmergency(r: LandingRequest)
    requires !r.runwayClear && !r.alternateRunwayAvailable
    ensures Allowed(r) <==> EmergencyLanding(r)
  {
  }

  /** A speed of 150 or more is denied unless the emergency clearance applies. */
  lemma SpeedLimitIsExclusive(r: LandingRequest)
    requires r.planeSpeed >= SPEED_LIMIT && !EmergencyLanding(r)
    ensures AirTrafficControl(r) == Decision(LANDING_DENIED, CONDITIONS_NOT_MET)
  {
  }

  /**
   * `b` is at least as favourable as `a`: every flag that helps is kept, the
   * speed, wind and traffic are no higher and the visibility is no lower.
   */
  predicate AtLeastAsFavourable(a: LandingRequest, b: LandingRequest) {
    && (a.runwayClear ==> b.runwayClear)
    && (a.alternateRunwayAvailable ==> b.alternateRunwayAvailable)
    && b.planeSpeed <= a.planeSpeed
    && (a.emergency ==> b.emergency)
    && b.windSpeed <= a.windSpeed
    && b.visibility >= a.visibility
    && b.airportTraffic <= a.airportTraffic
    && (a.priorityStatus ==> b.priorityStatus)
  }

  /** Making any input more favourable never turns an allowed landing into a denial. */
  lemma MoreFavourableStaysAllowed(a: LandingRequest, b: LandingRequest)
    requires AtLeastAsFavourable(a, b) && Allowed(a)
    ensures Allowed(b)
  {
    AllowedExactlyWhenAPathHolds(a);
    AllowedExactlyWhenAPathHolds(b);
  }

  // The vectors of the three test files, one lemma per test function.

  lemma ActiveClausesFirstPredicate()
    ensures AirTrafficControl(LandingRequest(true, true, 100.0, false, 10.0, 1000.0, 2, false))
              == Decision(LANDING_ALLOWED, ALL_CONDITIONS_MET)
    ensures AirTrafficControl(LandingRequest(true, true, 150.0, false, 10.0, 1000.0, 2, false))
              == Decision(LANDING_DENIED, CONDITIONS_NOT_MET)
    ensures AirTrafficControl(LandingRequest(false, true, 100.0, false, 10.0, 1000.0, 2, false))
              == Decision(LANDING_ALLOWED, ALL_CONDITIONS_MET)
    ensures AirTrafficControl(LandingRequest(false, true, 100.0, false, 50.0, 1000.0, 2, false))
              == Decision(LANDING_DENIED, CONDITIONS_NOT_MET)
    ensures AirTrafficControl(LandingRequest(true, false, 100.0, false, 10.0, 1000.0, 2, false))
              == Decision(LANDING_ALLOWED, ALL_CONDITIONS_MET)
    ensures AirTrafficControl(LandingRequest(true, false, 100.0, false, 10.0, 1000.0, 6, false))
              == Decision(LANDING_DENIED, CONDITIONS_NOT_MET)
  {
  }

  lemma ActiveClausesSecondPredicate()
    ensures AirTrafficControl(LandingRequest(true, true, 100.0, false, 10.0, 800.0, 2, true))
              == Decision(LANDING_ALLOWED, PRIORITY_OVERRIDES)
    ensures AirTrafficControl(LandingRequest(true, true, 100.0, true, 10.0, 800.0, 2, true))
              == Decision(LANDING_ALLOWED, EMERGENCY_CLEARANCE)
    ensures AirTrafficControl(LandingRequest(false, true, 100.0, false, 10.0, 800.0, 2, true))
              == Decision(LANDING_ALLOWED, PRIORITY_OVERRIDES)
    ensures AirTrafficControl(LandingRequest(false, true, 150.0, false, 10.0, 800.0, 2, true))
              == Decision(LANDING_DENIED, CONDITIONS_NOT_MET)
    ensures AirTrafficControl(LandingRequest(true, false, 100.0, false, 10.0, 800.0, 2, true))
              == Decision(LANDING_ALLOWED, PRIORITY_OVERRIDES)
    ensures AirTrafficControl(LandingRequest(false, false, 100.0, false, 10.0, 800.0, 6, true))
              == Decision(LANDING_DENIED, CONDITIONS_NOT_MET)
  {
  }

  lemma ActiveClausesThirdPredicate()
    ensures AirTrafficControl(LandingRequest(false, false, 100.0, true, 10.0, 1000.0, 2, true))
              == Decision(LANDING_ALLOWED, EMERGENCY_CLEARANCE)
    ensures AirTrafficControl(LandingRequest(false, false, 100.0, true, 10.0, 1000.0, 2, false))
              == Decision(LANDING_DENIED, CONDITIONS_NOT_MET)
    ensures AirTrafficControl(LandingRequest(false, false, 100.0, false, 10.0, 1000.0, 2, true))
              == Decision(LANDING_DENIED, CONDITIONS_NOT_MET)
  {
  }

  lemma InactiveClausesFirstPredicate()
    ensures AirTrafficControl(LandingRequest(true, true, 100.0, false, 10.0, 1000.0, 6, false))
              == Decision(LANDING_DENIED, CONDITIONS_NOT_MET)
    ensures AirTrafficControl(LandingRequest(true, true, 100.0, true, 10.0, 1000.0, 6, false))
              == Decision(LANDING_DENIED, CONDITIONS_NOT_MET)
    ensures AirTrafficControl(LandingRequest(true, true, 100.0, false, 10.0, 1000.0, 2, false))
              == Decision(LANDING_ALLOWED, ALL_CONDITIONS_MET)
    ensures AirTrafficControl(LandingRequest(true, false, 100.0, false, 10.0, 1000.0, 2, false))
              == Decision(LANDING_ALLOWED, ALL_CONDITIONS_MET)
  {
  }

  lemma InactiveClausesSecondPredicate()
    ensures AirTrafficControl(LandingRequest(true, true, 100.0, false, 10.0, 800.0, 5, true))
              == Decision(LANDING_ALLOWED, PRIORITY_OVERRIDES)
    ensures AirTrafficControl(LandingRequest(true, true, 100.0, false, 10.0, 800.0, 6, true))
              == Decision(LANDING_ALLOWED, PRIORITY_OVERRIDES)
    ensures AirTrafficControl(LandingRequest(true, true, 100.0, false, 10.0, 100.0, 6, true))
              == Decision(LANDING_ALLOWED, PRIORITY_OVERRIDES)
    ensures AirTrafficControl(LandingRequest(true, true, 100.0, false, 100.0, 100.0, 6, true))
              == Decision(LANDING_ALLOWED, PRIORITY_OVERRIDES)
  {
  }

  lemma InactiveClausesThirdPredicate()
    ensures AirTrafficControl(LandingRequest(false, false, 100.0, false, 10.0, 1000.0, 6, true))
              == Decision(LANDING_DENIED, CONDITIONS_NOT_MET)
    ensures AirTrafficControl(LandingRequest(false, false, 100.0, false, 10.0, 1000.0, 6, false))
              == Decision(LANDING_DENIED, CONDITIONS_NOT_MET)
    ensures AirTrafficControl(LandingRequest(false, false, 100.0, true, 10.0, 1000.0, 6, false))
              == Decision(LANDING_DENIED, CONDITIONS_NOT_MET)
  {
  }

  /** TC1 to TC7 of the clause-coverage tests. */
  lemma ClauseCoverage()
    ensures AirTrafficControl(LandingRequest(true, false, 120.0, false, 20.0, 2000.0, 2, false))
              == Decision(LANDING_ALLOWED, ALL_CONDITIONS_MET)
    ensures AirTrafficControl(LandingRequest(true, false, 120.0, false, 60.0, 500.0, 7, true))
              == Decision(LANDING_ALLOWED, PRIORITY_OVERRIDES)
    ensures AirTrafficControl(LandingRequest(true, false, 120.0, true, 70.0, 300.0, 2, true))
              == Decision(LANDING_ALLOWED, EMERGENCY_CLEARANCE)
    ensures AirTrafficControl(LandingRequest(true, false, 200.0, false, 20.0, 2000.0, 2, false))
              == Decision(LANDING_DENIED, CONDITIONS_NOT_MET)
    ensures AirTrafficControl(LandingRequest(false, false, 120.0, false, 20.0, 2000.0, 2, false))
              == Decision(LANDING_DENIED, CONDITIONS_NOT_MET)
    ensures AirTrafficControl(LandingRequest(false, false, 200.0, true, 20.0, 2000.0, 10, true))
              == Decision(LANDING_ALLOWED, EMERGENCY_CLEARANCE)
    ensures AirTrafficControl(LandingRequest(false, false, 200.0, false, 70.0, 300.0, 10, false))
              == Decision(LANDING_DENIED, CONDITIONS_NOT_MET)
  {
  }

  /** One vector per approval path and one for the denial, from the predicate-coverage tests. */
  lemma PredicateCoverage()
    ensures AirTrafficControl(LandingRequest(true, false, 120.0, false, 20.0, 2000.0, 2, false))
              == Decision(LANDING_ALLOWED, ALL_CONDITIONS_MET)
    ensures AirTrafficControl(LandingRequest(false, true, 140.0, false, 50.0, 500.0, 7, true))
              == Decision(LANDING_ALLOWED, PRIORITY_OVERRIDES)
    ensures AirTrafficControl(LandingRequest(false, false, 200.0, true, 60.0, 300.0, 10, true))
              == Decision(LANDING_ALLOWED, EMERGENCY_CLEARANCE)
    ensures AirTrafficControl(LandingRequest(false, false, 180.0, false, 60.0, 300.0, 10, false))
              == Decision(LANDING_DENIED, CONDITIONS_NOT_MET)
  {
  }
}
