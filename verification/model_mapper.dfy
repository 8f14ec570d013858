/**
 * Translation of the caller's model name into the upstream provider's
 * model identifier: a fixed table with an identity fallback.
 */
module ModelMapper {

  /** The fixed mapping table, as built at start-up. */
  const ModelMapping: map<string, string> := map[
    "gpt-3.5-turbo" := "meta/llama3.1-8b",
    "gpt-3.5-turbo-16k" := "meta/llama3.1-8b",
    "gpt-4o" := "meta/llama3.1-8b",
    "gpt-4-32k" := "meta/llama3.1-8b",
    "gpt-4o-mini" := "openai/gpt-4o-mini"
  ]

  /** The upstream model for `name`: the table's entry, or `name` itself on a miss. */
  function Resolve(name: string): (actual: string)
    ensures name in ModelMapping ==> actual == ModelMapping[name]
    ensures name !in ModelMapping ==> actual == name
  {
    if name in ModelMapping then ModelMapping[name] else name
  }

  /**
   * No value of the table is itself a key, so a resolved name is never
   * mapped again: resolution is idempotent.
   */
  lemma ResolvedIsFinal(name: string)
    ensures Resolve(name) !in ModelMapping
    ensures Resolve(Resolve(name)) == Resolve(name)
  {
    if name in ModelMapping {
      assert ModelMapping[name] in {"meta/llama3.1-8b", "openai/gpt-4o-mini"};
    }
  }
}
