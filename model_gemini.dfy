/** The text corrector of the `model` package: the same passthrough rules
    as the `app` corrector, a fixed instruction text followed by the input
    as prompt, and a module-level client created on first use. */
module ModelGemini {
  import opened Text
  import opened Results
  import Gemini

  /** The prompt: the fixed instruction text, a line break, then the
      input. */
  function Prompt(instructions: string, text: string): (p: string)
    ensures |p| == |instructions| + 1 + |text|
    ensures p[..|instructions|] == instructions
    ensures p[|instructions|] == '\n'
    ensures p[|p| - |text|..] == text
  {
    instructions + "\n" + text
  }

  /** `correct_with_gemini(text)` given the configured key and model: blank
      input and a missing key pass the text through, otherwise the reply
      decides as in the `app` corrector. */
  function CorrectionResult(text: string, apiKey: string, model: string, instructions: string, api: Gemini.Api): (r: string)
    ensures AllSpace(text) ==> r == text
    ensures apiKey == "" ==> r == text
    ensures r == text || (r != "" && IsStripped(r))
  {
    if Strip(text) == "" then text
    else if apiKey == "" then text
    else Gemini.UseReply(api(model, Prompt(instructions, text)), text)
  }

  /** With non-blank input and a key, the reply to the instruction prompt
      decides: a non-blank reply is returned stripped, anything else gives
      back the input. */
  lemma CorrectionResultFromReply(text: string, apiKey: string, model: string, instructions: string, api: Gemini.Api)
    requires !AllSpace(text) && apiKey != ""
    ensures var reply := api(model, Prompt(instructions, text));
            && (reply.Answered? && !AllSpace(reply.text) ==> CorrectionResult(text, apiKey, model, instructions, api) == Strip(reply.text))
            && (!(reply.Answered? && !AllSpace(reply.text)) ==> CorrectionResult(text, apiKey, model, instructions, api) == text)
  {
  }

  /** The exception the settings object raises for an attribute it does
      not define. */
  function MissingAttribute(name: string): string {
    "'AppConfig' object has no attribute '" + name + "'"
  }

  /** `correct_with_gemini` as written against the `config` package's
      settings, which define no `gemini_api_key`: blank input passes
      through, any other input raises from the key check, which is
      outside the `try`. */
  function CorrectWithGeminiAsWritten(text: string): (r: Result<string, string>)
    ensures AllSpace(text) ==> r == Ok(text)
    ensures !AllSpace(text) ==> r == Err(MissingAttribute("gemini_api_key"))
  {
    if Strip(text) == "" then Ok(text) else Err(MissingAttribute("gemini_api_key"))
  }

  /** The discrepancy: for non-blank input the function as written raises,
      where the corrected one returns a string whatever the API does. */
  lemma AsWrittenRaises(apiKey: string, model: string, instructions: string, api: Gemini.Api)
    ensures CorrectWithGeminiAsWritten("a").Err?
    ensures var r := CorrectionResult("a", apiKey, model, instructions, api);
            r == "a" || (r != "" && IsStripped(r))
  {
    var a := "a";
    assert a[0] == 'a' && !IsSpace(a[0]);
    assert !AllSpace(a);
  }

  /** The module-level `_client` slot. */
  class ClientSlot {
    var client: Gemini.Client?
    /** How many clients have been made. */
    ghost var creations: nat

    /** At most one client is ever made, and the slot holds it once made. */
    ghost predicate Valid()
      reads this
    {
      creations <= 1 && (client == null <==> creations == 0)
    }

    constructor ()
      ensures Valid() && client == null
    {
      client := null;
      creations := 0;
    }

    /** `get_gemini_client`: the cached client when there is one, otherwise
        a new one, cached. */
    method GetGeminiClient(apiKey: string) returns (c: Gemini.Client)
      requires Valid()
      modifies this
      ensures Valid() && client == c
      ensures old(client) != null ==> c == old(client) && creations == old(creations)
      ensures old(client) == null ==> fresh(c) && c.apiKey == apiKey && creations == 1
    {
      if client != null {
        return client;
      }
      client := new Gemini.Client(apiKey);
      creations := creations + 1;
      c := client;
    }

    /** `correct_with_gemini(text)`, with the client taken from this slot. */
    method CorrectWithGemini(text: string, apiKey: string, model: string, instructions: string, api: Gemini.Api)
      returns (r: string)
      requires Valid()
      modifies this
      ensures Valid()
      ensures r == CorrectionResult(text, apiKey, model, instructions, api)
      ensures old(client) != null ==> client == old(client)
      ensures client != old(client) ==> !AllSpace(text) && apiKey != ""
      ensures !AllSpace(text) && apiKey != "" ==> client != null
      ensures old(client) == null && client != null ==> fresh(client) && client.apiKey == apiKey
    {
      if Strip(text) == "" {
        return text;
      }
      if apiKey == "" {
        return text;
      }
      var c := GetGeminiClient(apiKey);
      var reply := api(model, Prompt(instructions, text));
      r := Gemini.UseReply(reply, text);
    }
  }
}
