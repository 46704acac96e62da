/** dns_policy.go: the refresh policy, its validation, and TTL clamping. */
module Policy {
  import opened Basics

  datatype Mode = Default | Static | SingleLookup | TTL | Cadence | Unsupported

  /** An action byte outside the three named ones behaves like Flush. */
  datatype Action = NoAction | Flush | ForceLookup | OtherAction

  datatype GuardPolicy = GuardPolicy(threshold: int, window: Duration, action: Action) {
    predicate Enabled() { threshold > 0 && action != NoAction }
  }

  type Addr = string

  /** What the dialer is pointed at: an address and a port. */
  datatype Target = Target(addr: Addr, port: string)

  datatype DnsPolicy = DnsPolicy(
    mode: Mode,
    staticAddr: Option<Target>,
    cadence: Duration,
    ttlMin: Duration,
    ttlMax: Duration,
    disableFallback: bool,
    guard: GuardPolicy)
  {
    predicate FallbackEnabled() { !disableFallback }

    /** None when the policy is coherent. */
    function Validate(): Option<Error> {
      match mode
      case Default | SingleLookup => None
      case Static => if staticAddr.None? then Some("static mode requires StaticAddr") else None
      case TTL => if ttlMax > 0 && ttlMin > ttlMax then Some("TTLMin must be <= TTLMax") else None
      case Cadence => if cadence <= 0 then Some("cadence mode requires positive Cadence") else None
      case Unsupported => Some("unknown DNS refresh mode")
    }

    predicate Valid() { Validate().None? }

    function NormalizeTTL(ttl: Duration): Duration {
      if ttl <= 0 then ttlMin
      else if ttlMin > 0 && ttl < ttlMin then ttlMin
      else if ttlMax > 0 && ttl > ttlMax then ttlMax
      else ttl
    }

    /** How long an answer with this TTL stays usable in TTL mode. */
    function Lifetime(ttl: Duration): Duration { Max(0, NormalizeTTL(ttl)) }
  }

  /** TTLMax bounds every normalised TTL exactly for the policies Validate accepts. */
  lemma TTLMaxBoundsIffValid(p: DnsPolicy)
    requires p.mode == TTL && p.ttlMax > 0
    ensures (forall ttl :: p.NormalizeTTL(ttl) <= p.ttlMax) <==> p.Valid()
  {
    if !p.Valid() {
      assert p.NormalizeTTL(0) > p.ttlMax;
    }
  }

  /** The policies that Validate accepts, mode by mode. */
  lemma AcceptedIff(p: DnsPolicy)
    ensures p.Validate().None? <==>
            || p.mode == Default || p.mode == SingleLookup
            || (p.mode == Static && p.staticAddr.Some?)
            || (p.mode == TTL && (p.ttlMax <= 0 || p.ttlMin <= p.ttlMax))
            || (p.mode == Cadence && p.cadence > 0)
  {
  }

  /** On a valid policy normalising is a projection that keeps the order of TTLs, never leaves the
      configured bounds, and moves no positive TTL that already lies inside them. */
  lemma NormalizeTTLProjects(p: DnsPolicy, a: Duration, b: Duration)
    requires p.mode == TTL && p.Valid()
    ensures p.NormalizeTTL(p.NormalizeTTL(a)) == p.NormalizeTTL(a)
    ensures a <= b ==> p.NormalizeTTL(a) <= p.NormalizeTTL(b)
    ensures p.ttlMin <= p.NormalizeTTL(a)
    ensures a <= 0 || a <= p.ttlMin ==> p.NormalizeTTL(a) == p.ttlMin
    ensures p.ttlMax > 0 && a >= p.ttlMax ==> p.NormalizeTTL(a) == p.ttlMax
    ensures a > 0 && p.ttlMin <= a && (p.ttlMax > 0 ==> a <= p.ttlMax) ==> p.NormalizeTTL(a) == a
  {
  }
}
