/**
 * The request gate that runs before every route: it turns the external
 * policy engine's decision into either a pass to the next handler or one
 * written refusal.
 */
module SecurityMiddleware {
  import opened Http

  /** The engine's overall verdict; only Deny counts as denied. */
  datatype Conclusion = Allow | Deny | Challenge | Error

  /** What the gate can observe of a decision's reason: the answers of its three type tests. */
  datatype Reason = Reason(isBot: bool, isShield: bool, isRateLimit: bool)

  datatype Decision = Decision(conclusion: Conclusion, reason: Reason) {
    predicate IsDenied() {
      conclusion == Deny
    }
  }

  /** The evaluation of one request: a decision, or an exception anywhere before the gate acts on it. */
  datatype Protection = Decided(decision: Decision) | Threw

  /** What the gate does: call `next()` and write nothing, or write one response and not call `next()`. */
  datatype GateResult = CallNext | Blocked(response: Response)

  const BotBlocked: Response :=
    Response(403, ErrorMessage("Forbidden", "Automated requests are not allowed"), NoCookie)

  const ShieldBlocked: Response :=
    Response(403, ErrorMessage("Forbidden", "Shield request blocked"), NoCookie)

  const RateLimited: Response :=
    Response(429, ErrorMessage("Too Many Requests", "Rate limit exceeded. Please try again later"), NoCookie)

  const GateFailure: Response :=
    Response(500, ErrorMessage("Internal server error", "Something went wrong with security middleware"), NoCookie)

  /** True when a denied decision carries none of the three reasons the gate knows. */
  predicate Unrecognised(r: Reason) {
    !r.isBot && !r.isShield && !r.isRateLimit
  }

  /**
   * The gate's decision table. Reasons are tried in the order bot, shield,
   * rate limit; a denial for any other reason passes like an allow.
   */
  function SecurityGate(p: Protection): (g: GateResult)
    ensures g == CallNext <==>
      p.Decided? && (!p.decision.IsDenied() || Unrecognised(p.decision.reason))
    ensures g == Blocked(BotBlocked) <==>
      p.Decided? && p.decision.IsDenied() && p.decision.reason.isBot
    ensures g == Blocked(ShieldBlocked) <==>
      p.Decided? && p.decision.IsDenied() && !p.decision.reason.isBot && p.decision.reason.isShield
    ensures g == Blocked(RateLimited) <==>
      && p.Decided? && p.decision.IsDenied()
      && !p.decision.reason.isBot && !p.decision.reason.isShield && p.decision.reason.isRateLimit
    ensures g == Blocked(GateFailure) <==> p.Threw?
  {
    match p
    case Threw => Blocked(GateFailure)
    case Decided(d) =>
      if d.IsDenied() && d.reason.isBot then Blocked(BotBlocked)
      else if d.IsDenied() && d.reason.isShield then Blocked(ShieldBlocked)
      else if d.IsDenied() && d.reason.isRateLimit then Blocked(RateLimited)
      else CallNext
  }

  /** Every blocked request gets 403, 429 or 500 and never a cookie; nothing else is ever written. */
  lemma BlockedResponses(p: Protection)
    ensures SecurityGate(p).Blocked? ==>
      && SecurityGate(p).response.status in {403, 429, 500}
      && SecurityGate(p).response.cookie == NoCookie
      && SecurityGate(p).response.body.ErrorMessage?
    ensures SecurityGate(p).Blocked? && SecurityGate(p).response.status == 500 <==> p.Threw?
  {
  }

  /**
   * A denial the gate cannot classify, and every conclusion other than Deny
   * (an engine error among them), is treated exactly like an allow.
   */
  lemma FailsOpen(c: Conclusion, r: Reason)
    requires c != Deny || Unrecognised(r)
    ensures SecurityGate(Decided(Decision(c, r))) == SecurityGate(Decided(Decision(Allow, r)))
    ensures SecurityGate(Decided(Decision(c, r))) == CallNext
  {
  }
}
