/** The translator's system prompt: built from the chosen language prompt,
    tone prompt and optional translation rules, and kept in the first slot of
    the session's message list. */
module Prompt {

  const RulesIntro: string := "\n\nPlease follow these translation rules: "
  const AssistantRole: string := "assistant"

  /** One chat message, a role and a content. */
  datatype Message = Message(role: string, content: string)

  /** The system prompt: the language prompt and the tone prompt separated by
      a space, then the rules sentence when rules were given. */
  function FinalPrompt(languagePrompt: string, tonePrompt: string, rules: string): (r: string)
    ensures |r| >= |languagePrompt| + 1 + |tonePrompt|
    ensures r[..|languagePrompt| + 1 + |tonePrompt|] == languagePrompt + " " + tonePrompt
    ensures r == languagePrompt + " " + tonePrompt <==> rules == ""
    ensures rules != "" ==>
              r[|languagePrompt| + 1 + |tonePrompt|..] == RulesIntro + rules + "."
  {
    var base := languagePrompt + " " + tonePrompt;
    if rules != "" then base + RulesIntro + rules + "." else base
  }

  /** Different rules give different prompts: the rules can be read back from
      the prompt. */
  lemma FinalPromptDeterminesRules(languagePrompt: string, tonePrompt: string, r1: string, r2: string)
    requires FinalPrompt(languagePrompt, tonePrompt, r1) == FinalPrompt(languagePrompt, tonePrompt, r2)
    ensures r1 == r2
  {
    if r1 != "" && r2 != "" {
      var s1, s2 := RulesIntro + r1 + ".", RulesIntro + r2 + ".";
      assert s1 == s2;
      assert s1[|RulesIntro|..|s1| - 1] == r1;
      assert s2[|RulesIntro|..|s2| - 1] == r2;
    }
  }

  /** The message list once the prompt is in place: a non-empty list has the
      content of its first message replaced, an empty one gets one assistant
      message. */
  function WithPrompt(messages: seq<Message>, prompt: string): (r: seq<Message>)
    ensures |r| == if messages == [] then 1 else |messages|
    ensures r[0].content == prompt
    ensures messages == [] ==> r[0].role == AssistantRole
    ensures forall i :: 0 <= i < |messages| ==> r[i].role == messages[i].role
    ensures forall i :: 1 <= i < |messages| ==> r[i] == messages[i]
  {
    if messages != [] then messages[0 := messages[0].(content := prompt)]
    else [Message(AssistantRole, prompt)]
  }

  /** Setting the prompt twice is setting it once. */
  lemma WithPromptIdempotent(messages: seq<Message>, prompt: string)
    ensures WithPrompt(WithPrompt(messages, prompt), prompt) == WithPrompt(messages, prompt)
  {
  }

  /** The last prompt set wins: an earlier one leaves no trace. */
  lemma WithPromptLastWins(messages: seq<Message>, p: string, q: string)
    ensures WithPrompt(WithPrompt(messages, p), q) == WithPrompt(messages, q)
  {
    var r, s := WithPrompt(WithPrompt(messages, p), q), WithPrompt(messages, q);
    assert |r| == |s|;
    forall i | 0 <= i < |r| ensures r[i] == s[i] {
      if i == 0 && messages == [] {
        assert r[0].role == AssistantRole;
      }
    }
  }

  /** The Streamlit session's conversation. */
  class Session {
    var messages: seq<Message>

    /** A new session starts with no messages. */
    constructor ()
      ensures messages == []
    {
      messages := [];
    }

    /** Puts the prompt built from the three pieces into the first slot. */
    method SetPrompt(languagePrompt: string, tonePrompt: string, rules: string)
      modifies this
      ensures messages == WithPrompt(old(messages), FinalPrompt(languagePrompt, tonePrompt, rules))
      ensures old(messages) == [] ==>
                messages == [Message(AssistantRole, FinalPrompt(languagePrompt, tonePrompt, rules))]
      ensures old(messages) != [] ==>
                && |messages| == |old(messages)|
                && messages[0] == old(messages)[0].(content := FinalPrompt(languagePrompt, tonePrompt, rules))
                && messages[1..] == old(messages)[1..]
    {
      var finalPrompt := FinalPrompt(languagePrompt, tonePrompt, rules);
      if messages != [] {
        messages := messages[0 := messages[0].(content := finalPrompt)];
      } else {
        messages := messages + [Message(AssistantRole, finalPrompt)];
      }
    }
  }
}
