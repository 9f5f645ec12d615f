/**
 * Model-id normalisation for AWS Bedrock (`patchpal/agent.py`): ids that
 * name a Bedrock model get the `bedrock/` prefix that LiteLLM routes by.
 */
module Agent {
  import opened PyStr

  const BedrockPrefix := "bedrock/"

  /** The provider names that mark a dotted id as a Bedrock model id. */
  const Providers := ["anthropic", "amazon", "meta", "cohere", "ai21"]

  /** `_is_bedrock_arn`. */
  predicate IsBedrockArn(id: string)
  {
    StartsWith(id, "arn:aws") && Contains(id, ":bedrock:") && Contains(id, ":inference-profile/")
  }

  /** `any(provider in model_id for provider in [...])`. */
  predicate NamesProvider(id: string)
  {
    exists k :: 0 <= k < |Providers| && Contains(id, Providers[k])
  }

  /** The id names a Bedrock model that is not yet prefixed. */
  predicate NeedsPrefix(id: string)
  {
    !StartsWith(id, BedrockPrefix) && (IsBedrockArn(id) || ('.' in id && NamesProvider(id)))
  }

  /** `_normalize_bedrock_model_id`. */
  function NormalizeBedrockModelId(id: string): (r: string)
    ensures r == id || r == BedrockPrefix + id
  {
    if StartsWith(id, BedrockPrefix) then id
    else if IsBedrockArn(id) then BedrockPrefix + id
    else if '.' in id && NamesProvider(id) then BedrockPrefix + id
    else id
  }

  /** The prefix is added exactly to the ids that name an unprefixed
    * Bedrock model; every other id is returned unchanged. */
  lemma NormalizeAddsPrefixIff(id: string)
    ensures NormalizeBedrockModelId(id) == BedrockPrefix + id <==> NeedsPrefix(id)
    ensures NormalizeBedrockModelId(id) == id <==> !NeedsPrefix(id)
  {
    assert |BedrockPrefix + id| != |id|;
  }

  /** After normalisation a Bedrock model id carries the prefix. */
  lemma NormalizedHasPrefix(id: string)
    requires StartsWith(id, BedrockPrefix) || NeedsPrefix(id)
    ensures StartsWith(NormalizeBedrockModelId(id), BedrockPrefix)
  {
    if !StartsWith(id, BedrockPrefix) {
      assert (BedrockPrefix + id)[..|BedrockPrefix|] == BedrockPrefix;
    }
  }

  lemma PrefixedStartsWith(id: string)
    ensures StartsWith(BedrockPrefix + id, BedrockPrefix)
  {
    assert (BedrockPrefix + id)[..|BedrockPrefix|] == BedrockPrefix;
  }

  /** Normalising twice is normalising once. */
  lemma NormalizeIdempotent(id: string)
    ensures NormalizeBedrockModelId(NormalizeBedrockModelId(id)) == NormalizeBedrockModelId(id)
  {
    var r := NormalizeBedrockModelId(id);
    if r != id {
      PrefixedStartsWith(id);
    }
  }

  /** A dotted id that starts with a provider name, such as
    * `anthropic.claude-v2`, is a Bedrock model id. */
  lemma NormalizeProviderId(k: int, rest: string)
    requires 0 <= k < |Providers|
    ensures var id := Providers[k] + "." + rest;
      NormalizeBedrockModelId(id) == BedrockPrefix + id
  {
    var p := Providers[k];
    var id := p + "." + rest;
    assert !StartsWith(id, BedrockPrefix) by { assert id[0] != BedrockPrefix[0]; }
    assert id[|p|] == '.';
    assert id[0..0 + |p|] == p;
    assert Find(id, p, 0).Some?;
  }

  /** An id with no dot that is not in ARN form, such as `gpt-4o`, is
    * returned unchanged. */
  lemma NormalizeOtherId(id: string)
    requires '.' !in id && !StartsWith(id, "arn:aws")
    ensures NormalizeBedrockModelId(id) == id
  {
  }

  lemma NormalizeGpt4o()
    ensures NormalizeBedrockModelId("gpt-4o") == "gpt-4o"
  {
    assert !StartsWith("gpt-4o", "arn:aws");
    NormalizeOtherId("gpt-4o");
  }
}
