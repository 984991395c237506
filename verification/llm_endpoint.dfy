/** `get_llm_endpoint` and the client base URL of the TGI adapter. The configuration the
    module reads from the environment at import time is a parameter. */
module LlmEndpoint {
  import opened Outcomes

  const DefaultTgiEndpoint := "http://localhost:8080"

  /** `os.getenv("TGI_LLM_ENDPOINT", "http://localhost:8080")`: the default replaces only an
      unset variable; an empty setting is kept, unlike the `or` fall-back of other settings. */
  function TgiEndpointSetting(setting: Option<string>): (e: string)
    ensures setting.Some? ==> e == setting.value
    ensures e != DefaultTgiEndpoint ==> setting == Some(e)
  {
    if setting.Some? then setting.value else DefaultTgiEndpoint
  }

  /** `MODEL_CONFIGS` (the raw setting), the map `load_model_configs` made of it,
      `LLM_MODEL_ID` and `DEFAULT_ENDPOINT` (the `TgiEndpointSetting` of `TGI_LLM_ENDPOINT`). */
  datatype EndpointConfig = EndpointConfig(
    modelConfigs: Option<string>,
    configsMap: map<string, map<string, string>>,
    modelName: Option<string>,
    defaultEndpoint: string)

  /** The exception reaching the caller while the client is built. */
  datatype ConfigFailure =
    | ConfigError(message: string)
    | AttributeError(message: string)
    | TypeError(message: string)

  /** `not MODEL_CONFIGS`: unset or empty. */
  predicate NoModelConfigs(c: EndpointConfig) {
    c.modelConfigs.None? || c.modelConfigs.value == ""
  }

  /** The configuration entry of the model, if `configs_map.get(MODEL_NAME)` finds one. */
  predicate HasModelEntry(c: EndpointConfig) {
    c.modelName.Some? && c.modelName.value in c.configsMap
  }

  /** `dict.get("endpoint")` on the model's entry. */
  function EntryEndpoint(c: EndpointConfig): Option<string>
    requires HasModelEntry(c)
  {
    var entry := c.configsMap[c.modelName.value];
    if "endpoint" in entry then Some(entry["endpoint"]) else None
  }

  /** `get_llm_endpoint` as written: for a model without an entry, `configs_map.get` returns
      None and `.get("endpoint")` on it raises AttributeError, which the `except ConfigError`
      clause does not catch. */
  function GetLlmEndpointAsWritten(c: EndpointConfig): (r: Result<Option<string>, ConfigFailure>)
    ensures NoModelConfigs(c) ==> r == Success(Some(c.defaultEndpoint))
    ensures !NoModelConfigs(c) && HasModelEntry(c) ==> r == Success(EntryEndpoint(c))
  {
    if NoModelConfigs(c) then Success(Some(c.defaultEndpoint))
    else if HasModelEntry(c) then Success(EntryEndpoint(c))
    else Failure(AttributeError("'NoneType' object has no attribute 'get'"))
  }

  /** The message the handler of `get_llm_endpoint` means to raise. */
  function MissingModelMessage(c: EndpointConfig): string {
    "Input model " + (if c.modelName.Some? then c.modelName.value else "None") + " not present in model_configs"
  }

  /** `get_llm_endpoint` as its handler intends: a model without an entry is a ConfigError. */
  function GetLlmEndpoint(c: EndpointConfig): (r: Result<Option<string>, ConfigFailure>)
    ensures r.Failure? <==> !NoModelConfigs(c) && !HasModelEntry(c)
    ensures r.Failure? ==> r.error.ConfigError?
  {
    if NoModelConfigs(c) then Success(Some(c.defaultEndpoint))
    else if HasModelEntry(c) then Success(EntryEndpoint(c))
    else Failure(ConfigError(MissingModelMessage(c)))
  }

  /** As written, a configured service whose model has no entry fails with AttributeError
      rather than ConfigError. */
  lemma MissingModelRaisesAttributeError(c: EndpointConfig)
    requires !NoModelConfigs(c) && !HasModelEntry(c)
    ensures GetLlmEndpointAsWritten(c).Failure?
    ensures GetLlmEndpointAsWritten(c).error.AttributeError?
  {
  }

  /** The corrected endpoint agrees with the written one wherever the latter succeeds, and
      turns its AttributeError into the intended ConfigError. */
  lemma EndpointCorrection(c: EndpointConfig)
    ensures GetLlmEndpointAsWritten(c).Success? ==> GetLlmEndpoint(c) == GetLlmEndpointAsWritten(c)
    ensures GetLlmEndpointAsWritten(c).Failure? ==> GetLlmEndpoint(c) == Failure(ConfigError(MissingModelMessage(c)))
  {
  }

  /** The `base_url` of the OpenAI client: the endpoint plus `/v1`; an entry without an
      endpoint leaves None, and `None + "/v1"` raises TypeError. */
  function ClientBaseUrl(c: EndpointConfig): (r: Result<string, ConfigFailure>)
    ensures NoModelConfigs(c) ==> r == Success(c.defaultEndpoint + "/v1")
    ensures !NoModelConfigs(c) && HasModelEntry(c) && "endpoint" in c.configsMap[c.modelName.value] ==>
              r == Success(c.configsMap[c.modelName.value]["endpoint"] + "/v1")
    ensures r.Failure? <==> !NoModelConfigs(c) && !(HasModelEntry(c) && "endpoint" in c.configsMap[c.modelName.value])
  {
    match GetLlmEndpoint(c)
    case Failure(e) => Failure(e)
    case Success(None) => Failure(TypeError("unsupported operand type(s) for +: 'NoneType' and 'str'"))
    case Success(Some(endpoint)) => Success(endpoint + "/v1")
  }

  /** Without model configurations the client talks to `TGI_LLM_ENDPOINT`, by default
      `http://localhost:8080/v1`; a variable set to the empty string leaves the bare path. */
  lemma UnconfiguredClientBaseUrl(c: EndpointConfig, setting: Option<string>)
    requires NoModelConfigs(c) && c.defaultEndpoint == TgiEndpointSetting(setting)
    ensures setting.None? ==> ClientBaseUrl(c) == Success("http://localhost:8080/v1")
    ensures setting == Some("") ==> ClientBaseUrl(c) == Success("/v1")
    ensures setting.Some? ==> ClientBaseUrl(c) == Success(setting.value + "/v1")
  {
    assert DefaultTgiEndpoint + "/v1" == "http://localhost:8080/v1";
    assert "" + "/v1" == "/v1";
  }
}
