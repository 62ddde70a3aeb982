/** The text corrector of the `app` package: passthrough rules, prompt
    construction from a template, reply handling, and the lazily created
    API client. */
module Gemini {
  import opened Text
  import AppConfig

  /** What one `generate_content` request comes to: a reply with a text, a
      reply without one, or an exception. */
  datatype Reply = Answered(text: string) | NoText | Raised

  /** The language-model API, from the model name and the prompt. */
  type Api = (string, string) -> Reply

  /** The placeholder the template marks the input with. */
  const Placeholder: string := "{text}"

  /** `template.replace("{text}", text)`. */
  function Prompt(template: string, text: string): string {
    ReplaceAll(template, Placeholder, text)
  }

  /** The prompt is the template cut at every placeholder and glued back
      with the input in place of each. */
  lemma PromptSubstitutes(template: string, text: string)
    ensures Prompt(template, text) == Join(Split(template, Placeholder), text)
    ensures !Contains(template, Placeholder) ==> Prompt(template, text) == template
  {
    ReplaceIsJoinOfSplit(template, Placeholder, text);
    if !Contains(template, Placeholder) {
      ReplaceAbsent(template, Placeholder, text);
    }
  }

  /** The text a reply leads to: the stripped reply when that is not
      empty, and the original text otherwise. */
  function UseReply(reply: Reply, text: string): (r: string)
    ensures reply.Answered? && !AllSpace(reply.text) ==> r == Strip(reply.text) && r != ""
    ensures reply.Raised? || reply.NoText? || (reply.Answered? && AllSpace(reply.text)) ==> r == text
  {
    if reply.Answered? && reply.text != "" && Strip(reply.text) != "" then Strip(reply.text)
    else text
  }

  /** `correct(text)`: blank input and a missing key pass the text through;
      otherwise the reply decides. The result is always the input or a
      non-empty stripped string. */
  function Corrected(text: string, apiKey: string, template: string, model: string, api: Api): (r: string)
    ensures AllSpace(text) ==> r == text
    ensures apiKey == "" ==> r == text
    ensures r == text || (r != "" && IsStripped(r))
  {
    if Strip(text) == "" then text
    else if apiKey == "" then text
    else UseReply(api(model, Prompt(template, text)), text)
  }

  /** With non-blank input and a key, the request carries the prompt built
      from the template and its reply decides the result. */
  lemma CorrectedAsksApi(text: string, apiKey: string, template: string, model: string, api: Api)
    requires !AllSpace(text) && apiKey != ""
    ensures Corrected(text, apiKey, template, model, api) == UseReply(api(model, Prompt(template, text)), text)
  {
  }

  /** The result differs from the input only when the API answered with
      a non-blank text, and then it is that text stripped. */
  lemma CorrectionComesFromReply(text: string, apiKey: string, template: string, model: string, api: Api)
    ensures var r := Corrected(text, apiKey, template, model, api);
            var reply := api(model, Prompt(template, text));
            r != text ==> !AllSpace(text) && apiKey != "" && reply.Answered? && r == Strip(reply.text)
  {
    var reply := api(model, Prompt(template, text));
    if !AllSpace(text) && apiKey != "" && reply.Answered? && !AllSpace(reply.text) {
      assert UseReply(reply, text) == Strip(reply.text);
    }
  }

  /** A `genai.Client`, with the key it was made with. */
  class Client {
    const apiKey: string

    constructor (apiKey: string)
      ensures this.apiKey == apiKey
    {
      this.apiKey := apiKey;
    }
  }

  /** `GeminiCorrector`: the client slot, filled on first use. */
  class GeminiCorrector {
    var client: Client?
    /** How many clients this corrector has made. */
    ghost var creations: nat

    /** At most one client is ever made, and the slot holds it once made. */
    ghost predicate Valid()
      reads this
    {
      creations <= 1 && (client == null <==> creations == 0)
    }

    constructor ()
      ensures Valid() && client == null
    {
      client := null;
      creations := 0;
    }

    /** `enabled`: correction is on exactly when a key is configured. */
    function Enabled(cfg: AppConfig.Config): (b: bool)
      ensures b <==> cfg.geminiApiKey != ""
    {
      AppConfig.GeminiEnabled(cfg)
    }

    /** `_get_client`: makes the client on the first call and returns the
        same one on every later call. */
    method GetClient(apiKey: string) returns (c: Client)
      requires Valid()
      modifies this
      ensures Valid() && client == c
      ensures old(client) != null ==> c == old(client) && creations == old(creations)
      ensures old(client) == null ==> fresh(c) && c.apiKey == apiKey && creations == 1
    {
      if client == null {
        client := new Client(apiKey);
        creations := creations + 1;
      }
      c := client;
    }

    /** `correct(text)` under the configuration `cfg` and the prompt
        template `template`. The client is asked for only once both
        passthrough checks have passed. */
    method Correct(cfg: AppConfig.Config, template: string, api: Api, text: string) returns (r: string)
      requires Valid()
      modifies this
      ensures Valid()
      ensures r == Corrected(text, cfg.geminiApiKey, template, cfg.geminiModel, api)
      ensures old(client) != null ==> client == old(client)
      ensures client != old(client) ==> !AllSpace(text) && cfg.geminiApiKey != ""
      ensures !AllSpace(text) && cfg.geminiApiKey != "" ==> client != null
      ensures old(client) == null && client != null ==> fresh(client) && client.apiKey == cfg.geminiApiKey
    {
      if Strip(text) == "" {
        return text;
      }
      if cfg.geminiApiKey == "" {
        return text;
      }
      var c := GetClient(cfg.geminiApiKey);
      var reply := api(cfg.geminiModel, Prompt(template, text));
      r := UseReply(reply, text);
    }
  }
}
