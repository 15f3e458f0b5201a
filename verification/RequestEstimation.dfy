/** Estimating the tokens and the cost of a request from its body, before it is sent. */
module RequestEstimation {
  import opened Shared
  import opened Pricing
  import opened TextWalk

  const MAX_FRAGMENTS: nat := 2000

  /** The length of a string in JSON; escaping may lengthen it. */
  type Escaping = string -> nat

  ghost predicate Lengthens(escaped: Escaping) {
    forall s: string :: escaped(s) >= |s|
  }

  /** The least length of the compact JSON text of a value: a scalar takes at least one character, as a digit does. */
  function Serialized(value: Json, escaped: Escaping): nat
    decreases value
  {
    match value
    case Scalar => 1
    case Str(text) => escaped(text) + 2
    case Node(children) => SerializedAll(children, escaped) + if children.End? then 2 else 1
  }

  /** The length of all children, each with the comma or bracket before it. */
  function SerializedAll(children: Children, escaped: Escaping): nat
    decreases children
  {
    if children.End? then 0
    else
      1 + (if children.name.Some? then escaped(children.name.value) + 3 else 0)
      + Serialized(children.value, escaped) + SerializedAll(children.rest, escaped)
  }

  /** The length of fragments with a separator after each. */
  function Spaced(parts: seq<string>): nat {
    if parts == [] then 0 else |parts[0]| + 1 + Spaced(parts[1..])
  }

  /** The length of fragments joined with separators. */
  function JoinedLength(parts: seq<string>): nat {
    if parts == [] then 0 else Spaced(parts) - 1
  }

  lemma {:induction false} SpacedAppend(a: seq<string>, b: seq<string>)
    ensures Spaced(a + b) == Spaced(a) + Spaced(b)
  {
    if a == [] {
      assert a + b == b;
    } else {
      assert (a + b)[1..] == a[1..] + b;
      SpacedAppend(a[1..], b);
    }
  }

  class Fragments {
    var parts: seq<string>
    var visited: nat

    constructor ()
      ensures parts == [] && visited == 0
    {
      parts, visited := [], 0;
    }

    method Add(part: string)
      modifies `parts
      ensures parts == old(parts) + [part]
      ensures Spaced(parts) == Spaced(old(parts)) + |part| + 1
    {
      SpacedAppend(parts, [part]);
      parts := parts + [part];
    }

    /** Collects the strings of a value. They never take more room than its JSON text. */
    method Collect(value: Json, depth: nat, ghost escaped: Escaping)
      requires Lengthens(escaped)
      modifies this
      ensures Spaced(parts) <= Spaced(old(parts)) + Serialized(value, escaped)
      ensures visited <= if old(visited) <= MAX_FRAGMENTS + 1 then MAX_FRAGMENTS + 1 else old(visited)
      decreases value
    {
      if depth > MAX_DEPTH || visited > MAX_FRAGMENTS {
        return;
      }
      visited := visited + 1;
      match value
      case Scalar =>
      case Str(text) => Add(text);
      case Node(children) => CollectAll(children, depth, escaped);
    }

    method CollectAll(children: Children, depth: nat, ghost escaped: Escaping)
      requires Lengthens(escaped) && visited <= MAX_FRAGMENTS + 1
      modifies this
      ensures Spaced(parts) <= Spaced(old(parts)) + SerializedAll(children, escaped)
      ensures visited <= MAX_FRAGMENTS + 1
      decreases children
    {
      var left := children;
      while left.Child?
        invariant visited <= MAX_FRAGMENTS + 1
        invariant left == children || left < children
        invariant Spaced(parts) + SerializedAll(left, escaped) <= Spaced(old(parts)) + SerializedAll(children, escaped)
        decreases left
      {
        if left.name.Some? && left.value.Str? {
          Add(left.name.value + ":" + left.value.text);
        } else {
          Collect(left.value, depth + 1, escaped);
          if visited > MAX_FRAGMENTS {
            break;
          }
        }
        left := left.rest;
      }
    }
  }

  function CeilQuarter(n: nat): nat {
    (n + 3) / 4
  }

  function Max(a: nat, b: nat): nat {
    if a > b then a else b
  }

  /** The walk over the strings makes no difference: the JSON text, however long its scalars are, is the longer one. */
  method EstimatePromptTokens(body: Json, ghost escaped: Escaping, serializedLength: nat) returns (tokens: nat)
    requires Lengthens(escaped) && serializedLength >= Serialized(body, escaped)
    ensures tokens == Max(LEAST_PROMPT, CeilQuarter(serializedLength))
  {
    var fragments := new Fragments();
    fragments.Collect(body, 0, escaped);
    tokens := Max(LEAST_PROMPT, CeilQuarter(Max(serializedLength, JoinedLength(fragments.parts))));
  }

  /** A requested or configured number of tokens, as far as it can be read as a number. */
  type Field = Option<real>

  function ToPositiveInteger(field: Field): (r: Option<nat>)
    ensures r.Some? ==> field.Some? && r.value as real <= field.value
  {
    if field.Some? && field.value > 0.0 then Some(field.value.Floor) else None
  }

  /** The first field that is a positive number, even when it is truncated to zero. */
  function FirstGiven(fields: seq<Field>): Option<nat> {
    if fields == [] then None
    else if ToPositiveInteger(fields[0]).Some? then ToPositiveInteger(fields[0])
    else FirstGiven(fields[1..])
  }

  datatype Source = RequestCap | ProviderMetadata | ProtocolDefault

  datatype CompletionEstimate = CompletionEstimate(tokens: nat, source: Source)

  function Fallback(protocol: Protocol): nat {
    match protocol
    case AnthropicProtocol => 1024
    case OpenAiProtocol => 768
  }

  function EstimateCompletionTokens(caps: seq<Field>, protocol: Protocol, metadata: seq<Field>): CompletionEstimate {
    var explicit := FirstGiven(caps);
    var configured := FirstGiven(metadata);
    if explicit.Some? && explicit.value != 0 then CompletionEstimate(explicit.value, RequestCap)
    else if configured.Some? && configured.value != 0 then CompletionEstimate(configured.value, ProviderMetadata)
    else CompletionEstimate(Fallback(protocol), ProtocolDefault)
  }

  predicate Positive(field: Field) {
    field.Some? && field.value > 0.0
  }

  lemma {:induction false} FirstGivenAt(fields: seq<Field>)
    ensures FirstGiven(fields).Some? <==> exists i :: 0 <= i < |fields| && Positive(fields[i])
    ensures forall i ::
        0 <= i < |fields| && Positive(fields[i]) && (forall j :: 0 <= j < i ==> !Positive(fields[j])) ==>
      FirstGiven(fields) == Some(fields[i].value.Floor)
  {
    if fields == [] {
    } else {
      FirstGivenAt(fields[1..]);
      assert forall i :: 0 <= i < |fields| - 1 ==> fields[1..][i] == fields[i + 1];
      if !Positive(fields[0]) {
        forall i | 0 <= i < |fields| && Positive(fields[i]) && (forall j :: 0 <= j < i ==> !Positive(fields[j]))
          ensures FirstGiven(fields) == Some(fields[i].value.Floor)
        {
          assert fields[1..][i - 1] == fields[i];
        }
      }
    }
  }

  /**
   * An estimate is at least one token. It is the cap of the request exactly when the first positive cap is at least
   * one; a cap between zero and one hides the caps after it.
   */
  lemma CompletionEstimatePositive(caps: seq<Field>, protocol: Protocol, metadata: seq<Field>, i: nat)
    requires i < |caps| && Positive(caps[i]) && forall j :: 0 <= j < i ==> !Positive(caps[j])
    ensures var estimate := EstimateCompletionTokens(caps, protocol, metadata);
      && estimate.tokens >= 1
      && (estimate.source == RequestCap <==> caps[i].value >= 1.0)
      && (estimate.source == RequestCap ==> estimate.tokens == caps[i].value.Floor)
  {
    FirstGivenAt(caps);
  }

  /** The estimated cost of a request, in micro-dollars. */
  function EstimateRequestCost(pricing: ModelPricing, promptTokens: nat, completion: CompletionEstimate): int {
    Cost(pricing, Estimated(promptTokens, completion.tokens))
  }

  /** What is estimated for a request is never less than the least numbers of tokens. */
  lemma EstimatesEstimable(serializedLength: nat, caps: seq<Field>, protocol: Protocol, metadata: seq<Field>)
    ensures Estimable(Max(LEAST_PROMPT, CeilQuarter(serializedLength)),
                      EstimateCompletionTokens(caps, protocol, metadata).tokens)
  {
  }

  /**
   * What a provider reports costs no more than the estimate, if it keeps to the estimated tokens and caches are cheap.
   */
  lemma ChargeWithinEstimate(pricing: ModelPricing, serializedLength: nat, caps: seq<Field>, protocol: Protocol,
                             metadata: seq<Field>, report: Report)
    requires Valid(pricing) && NeverUnderestimates(pricing)
    requires Within(CreateUsageTokenCounts(report), Max(LEAST_PROMPT, CeilQuarter(serializedLength)),
                    EstimateCompletionTokens(caps, protocol, metadata).tokens)
    ensures var prompt := Max(LEAST_PROMPT, CeilQuarter(serializedLength));
      Cost(pricing, CreateUsageTokenCounts(report))
      <= EstimateRequestCost(pricing, prompt, EstimateCompletionTokens(caps, protocol, metadata))
  {
    var prompt := Max(LEAST_PROMPT, CeilQuarter(serializedLength));
    EstimatesEstimable(serializedLength, caps, protocol, metadata);
    CheapCachesEverywhere(pricing, prompt);
    EstimateDominates(pricing, CreateUsageTokenCounts(report), prompt,
                      EstimateCompletionTokens(caps, protocol, metadata).tokens);
  }
}
