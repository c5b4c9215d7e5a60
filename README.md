# Translation-cost calculator core, modelled in Dafny

This project models the logic in `app.py` of a small Streamlit translation
chat app. That app sends text to a chat-completion API and estimates what a
transcript costs. The model covers three parts:

- **Transcript splitter** (`APIPricing.split_text`). The text is cut at every
  `"\n"`, as Python's `str.split("\n")` does. A line equal to `## USER` or
  `## ASSISTANT` switches between a user and an assistant bucket, and empty
  lines are dropped. Every other line goes to the bucket of the current mode.
  Each bucket is then joined with `" "`. The user bucket starts out holding one
  empty string, so a non-empty user text starts with a space. The assistant
  bucket starts out holding `## ASSISTANT` and a fixed French-translation
  instruction, so every assistant text starts with both of them.
  `Transcript` gives the specification: it reads the lines back to front
  (`ModeAfter`, `Bucket`). `Pricing.APIPricing.SplitText` is the
  front-to-back loop with the user/assistant flag, and it is proved equal to
  that specification.
- **Cost formula** (`APIPricing.calc_cost`). The user text is priced at the
  prompt price and the assistant text at the completion price, both per 1000
  tokens. The token counter is a parameter `(model name, text) -> nat`, and the
  prices are `real`s.
- **System-prompt slot** (`main`, lines 119-130). The prompt is the language
  prompt, a space and the tone prompt, followed by a rules sentence when rules
  are given. It replaces the content of the first message of the session, or
  it becomes the first message, with role `assistant`, when the session is
  empty.

Files: `text.dfy` (Python's split and join on strings), `transcript.dfy` (the
splitter's specification and its properties), `pricing.dfy` (the
`APIPricing` class and the cost), `prompt.dfy` (the prompt and the
session's message list).

Two consequences of the seeds, which the model keeps:

- For `"## USER\nHello\n## ASSISTANT\nBonjour"` the user text is `" Hello"`.
  The `[""]` seed (app.py:25) adds the leading space
  (`Transcript.TwoTurnExample`).
- The assistant seed (app.py:26) is there whatever the transcript holds,
  including transcripts with their own assistant section.

## Model

| member | source | states |
|---|---|---|
| `Text.Split` | app.py:24 | splitting on "\n" always gives at least one piece, and no piece contains "\n" |
| `Text.Join` | app.py:44 | joining no parts gives "", and joining one part gives that part |
| `Text.SplitCount` | app.py:24 | n newlines give n+1 lines, so "" gives one empty line |
| `Text.JoinSplit` | app.py:24 | joining the lines again with "\n" gives back the text exactly |
| `Text.SplitJoin` | app.py:24 | splitting a "\n"-join of newline-free lines gives back those lines |
| `Transcript.ModeAfter` | app.py:27-35 | the mode after reading some lines: assistant only if an "## ASSISTANT" line was read, and assistant whenever one was read and no "## USER" line was |
| `Transcript.Bucket` | app.py:29-42 | defines, in input order, the content lines read while the mode is the given role; its contract states that it never holds a marker or an empty line and is never longer than the input (order is `BucketKeepsOrder`) |
| `Transcript.Segments` | app.py:39-44 | the pair of seeded, space-joined buckets; the user text is "" exactly when the user bucket is empty and otherwise starts with a space; the assistant text always starts with the fixed prefix |
| `Transcript.SplitTranscript` | app.py:23-44 | the splitter on a whole text, cut at every "\n": the user text is "" or starts with a space, and the assistant text starts with the fixed prefix |
| `Transcript.UserTextShape` | app.py:25-44 | the user text is "" exactly when no line reaches the user bucket; otherwise it is a space followed by the user lines joined with spaces |
| `Transcript.AssistantTextShape` | app.py:26-44 | the assistant text always begins with "## ASSISTANT" + " " + the fixed instruction; it equals that prefix exactly when no line reaches the assistant bucket; otherwise the prefix is followed by a space and the assistant lines |
| `Transcript.ModeAfterLastMarker` | app.py:27-35 | the mode is assistant exactly when some line is "## ASSISTANT" and no "## USER" line follows it; otherwise it is user, which is also the starting mode |
| `Transcript.BucketsPartitionContent` | app.py:29-42 | as multisets, the two buckets together hold exactly the content lines, so each content line goes to exactly one bucket |
| `Transcript.BucketKeepsOrder` | app.py:39-42 | each bucket is a subsequence of the content lines, so input order is kept |
| `Transcript.NoMarkersAllUser` | app.py:27-42 | with no marker lines, every content line goes to the user bucket and none to the assistant bucket |
| `Transcript.MarkerSwitchesBucket` | app.py:30-42 | after the marker of a role, until the next marker, content lines are appended to that role's bucket and the other bucket is unchanged |
| `Transcript.ContentLineAppends` | app.py:36-42 | a line that is neither a marker nor empty, followed by marker-free lines, adds itself and then those lines' content to the bucket of the current mode, in order; the mode and the other bucket stay as they were |
| `Transcript.MarkersMatchExactly` | app.py:30-35 | "## USER ", "## USER\r", "## ASSISTANT " and "## ASSISTANT\r" are ordinary content: after any lines, each of the four is appended to the bucket of the current mode |
| `Transcript.EmptyLineIgnored` | app.py:36-37 | inserting an empty line anywhere changes neither the mode nor either bucket |
| `Transcript.EmptyLinesRemoved` | app.py:36-37 | removing all empty lines changes neither the mode nor either bucket |
| `Transcript.BlankLineIgnoredInTranscript` | app.py:24-44 | at the level of whole transcripts, an extra blank line between newline-free lines changes neither result |
| `Transcript.UnmarkedTranscript` | app.py:24-44 | a transcript with no markers gives the seeded join of all its non-empty lines as the user text and exactly the assistant prefix as the assistant text |
| `Transcript.TwoTurnExample` | app.py:23-44 | "## USER\nHello\n## ASSISTANT\nBonjour" splits into " Hello" and the assistant prefix followed by " Bonjour" |
| `Pricing.Lookup` | app.py:10-11 | a model in the price table gives its two prices; a missing model is an error naming that model (the source's KeyError) |
| `Pricing.Cost` | app.py:18-20 | with non-negative prices the cost is non-negative; with no prompt tokens (or no completion tokens) it is the other part alone |
| `Pricing.CostMonotone` | app.py:18-20 | with non-negative prices, the cost never decreases when either token count grows |
| `Pricing.CostAdditive` | app.py:18-20 | the cost of two batches of tokens together is the sum of their costs |
| `Pricing.CostExample` | app.py:18-20 | 100 prompt tokens at 1.0 and 50 completion tokens at 2.0 per 1000 cost 0.2 |
| `Pricing.APIPricing.constructor` | app.py:6-11 | the calculator holds the model name and the two prices it is given |
| `Pricing.APIPricing.Open` | app.py:6-11 | creating a calculator from a price table succeeds exactly when the model is in the table, with that model's prices; otherwise it fails naming the model |
| `Pricing.APIPricing.SplitText` | app.py:23-44 | the line-by-line loop with the user/assistant flag returns exactly the splitter's specification applied to the current text |
| `Pricing.APIPricing.CalcCost` | app.py:13-21 | records the text, and returns the user text's token count times the prompt price over 1000 plus the assistant text's token count times the completion price over 1000; the result is non-negative when both prices are |
| `Pricing.TranscriptCostMonotone` | app.py:15-20 | with non-negative prices, a counter that never gives fewer tokens gives every transcript a cost at least as high |
| `Prompt.FinalPrompt` | app.py:123-125 | the prompt begins with the language prompt, a space and the tone prompt; it is exactly that when the rules are empty; otherwise it continues with "\n\nPlease follow these translation rules: ", the rules and "." |
| `Prompt.FinalPromptDeterminesRules` | app.py:123-125 | two prompts built from the same language and tone prompts are equal only if their rules are equal |
| `Prompt.WithPrompt` | app.py:127-130 | a non-empty list keeps its length, every role and every entry after the first, and only the first content becomes the prompt; an empty list becomes one assistant message holding the prompt |
| `Prompt.WithPromptIdempotent` | app.py:127-130 | setting the same prompt twice is the same as setting it once |
| `Prompt.WithPromptLastWins` | app.py:127-130 | setting one prompt and then another leaves the same list as setting only the second |
| `Prompt.Session.constructor` | app.py:119-120 | a new session has an empty message list |
| `Prompt.Session.SetPrompt` | app.py:122-130 | the session's list becomes the list with the prompt in its first slot: replaced in place when the list is non-empty, with length and other entries unchanged, and a single assistant message otherwise |

## Left out

- Reading `api_pricing.json` and the `float(...)` parsing of its price strings (app.py:8-11, 80-82) are file I/O and numeric parsing. The price table is a `map<string, Prices>` of reals, and only the lookup's missing-model failure is modelled.
- Tokenization (`get_token_count`, app.py:46-49) uses a foreign library. It is the `TokenCounter` parameter. In the source, `tiktoken` is used at line 47 but never imported, so this call would fail at run time. The model does not reproduce that failure.
- Pricing.Cost: the arithmetic is over exact reals, so Python's floating-point rounding in the cost (app.py:18-20) is not modelled.
- Pricing.APIPricing.constructor: the model sets `text` to "". In the source, `self.text` does not exist until `calc_cost` assigns it, so calling `split_text` first would raise an error.
- Prompt.Session.SetPrompt: messages are values. Python's in-place change to the first message's dictionary, and any aliasing of that dictionary, are not modelled. The prompt pieces are plain strings. The dictionaries and select boxes that choose them (app.py:86-111) are UI.
- The Streamlit UI, session plumbing and widgets (app.py:51-121 apart from the session's initial empty list, 132-137), the OpenAI call and the messages it appends (app.py:139-158), and the catch-all error display (app.py:160-161) are UI and network code.
