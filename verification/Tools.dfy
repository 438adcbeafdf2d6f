/** What a tool declares about itself: its effect class, whether a human must
    approve it, whether its downstream can be read back by key, and the safe
    domain of one argument. */
module Tools {
  import opened Events

  datatype Effect = Read | WriteIdempotent | WriteNonidempotent

  datatype ArgPolicy = ArgPolicy(
    field: string,
    allowed: Option<seq<Value>>,
    forbidden: Option<seq<Value>>,
    min: Option<real>,
    max: Option<real>)

  datatype PolicyAnswer = Admitted | ForbiddenValue | FieldMissing | ValueNotAllowed | NotNumeric | BelowMin | AboveMax

  predicate IsNumber(v: Value) {
    v.VInt? || v.VFloat?
  }

  function Number(v: Value): real
    requires IsNumber(v)
  {
    if v.VInt? then v.i as real else v.r
  }

  /** Equality of two values as the source's language has it: an integer equals
      the float of the same magnitude; a boolean equals only a boolean. */
  predicate SameValue(v: Value, w: Value) {
    if IsNumber(v) && IsNumber(w) then Number(v) == Number(w) else v == w
  }

  predicate Matches(v: Value, candidates: seq<Value>) {
    exists k :: 0 <= k < |candidates| && SameValue(candidates[k], v)
  }

  function Evaluate(p: ArgPolicy, args: Args): PolicyAnswer {
    var present := p.field in args;
    if p.forbidden.Some? && present && Matches(args[p.field], p.forbidden.value) then ForbiddenValue
    else if p.allowed.Some? && !present then FieldMissing
    else if p.allowed.Some? && !Matches(args[p.field], p.allowed.value) then ValueNotAllowed
    else if p.min.None? && p.max.None? then Admitted
    else if !present then FieldMissing
    else if !IsNumber(args[p.field]) then NotNumeric
    else if p.min.Some? && Number(args[p.field]) < p.min.value then BelowMin
    else if p.max.Some? && Number(args[p.field]) > p.max.value then AboveMax
    else Admitted
  }

  /** The domain a policy declares, constraint by constraint. */
  predicate InDomain(p: ArgPolicy, args: Args) {
    && (p.forbidden.Some? && p.field in args ==> !Matches(args[p.field], p.forbidden.value))
    && (p.allowed.Some? ==> p.field in args && Matches(args[p.field], p.allowed.value))
    && (p.min.Some? || p.max.Some? ==>
          && p.field in args && IsNumber(args[p.field])
          && (p.min.Some? ==> p.min.value <= Number(args[p.field]))
          && (p.max.Some? ==> Number(args[p.field]) <= p.max.value))
  }

  /** A policy admits exactly its declared domain. An absent field is no danger to a
      list of forbidden values, and no comfort to any other constraint. */
  lemma {:induction false} AdmitsExactlyTheDomain(p: ArgPolicy, args: Args)
    ensures Evaluate(p, args) == Admitted <==> InDomain(p, args)
    ensures p.field !in args ==>
              (Evaluate(p, args) == Admitted <==> p.allowed.None? && p.min.None? && p.max.None?)
  {}

  /** A truth value never passes for a number, on either list or in a range. */
  lemma {:induction false} TruthIsNoNumber(p: ArgPolicy, args: Args, listed: Value)
    requires p.field in args && args[p.field].VBool? && IsNumber(listed)
    ensures !Matches(args[p.field], [listed])
    ensures p.min.Some? || p.max.Some? ==> Evaluate(p, args) != Admitted
  {}

  datatype Tool = Tool(
    effect: Effect,
    requiresApproval: bool,
    hasProbe: bool,
    policy: Option<ArgPolicy>)

  /** Tools by name. */
  type Registry = map<string, Tool>

  predicate PolicyAdmits(t: Tool, args: Args) {
    t.policy.Some? ==> Evaluate(t.policy.value, args) == Admitted
  }

  /** The idempotency key hashes run, branch and call id; the constructor is the
      collision-free hash. */
  datatype Key = Key(run: string, branch: string, call: CallId)
}
