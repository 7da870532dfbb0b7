/** Values shared by every part of the chat pipeline model: optional values,
    results with an error case, persisted chat messages and the prompt
    messages handed to the language model. */
module Common {

  datatype Option<+T> = None | Some(value: T)

  /** The outcome of an operation that the source may abort with an exception. */
  datatype Result<+T, +E> = Ok(value: T) | Err(error: E)

  /** Message types of a persisted chat message. */
  datatype Role = System | User | Assistant

  /** A persisted chat message: its identifier, the parent's identifier
      (absent only for the root), the identifier of the latest child
      (absent, or 0, when there is none), its role, its text and the
      precomputed token count of that text. */
  datatype ChatMessage = ChatMessage(
    id: int,
    parent: Option<int>,
    latestChild: Option<int>,
    role: Role,
    text: string,
    tokenCount: int)

  /** A message of a prompt sent to the language model. */
  datatype PromptMessage = PromptMessage(role: Role, content: string)

  /** Translation of a persisted chat message into a prompt message. */
  function ToPrompt(m: ChatMessage): (p: PromptMessage)
    ensures p.role == m.role && p.content == m.text
  {
    PromptMessage(m.role, m.text)
  }

  function ToPrompts(ms: seq<ChatMessage>): (ps: seq<PromptMessage>)
    ensures |ps| == |ms|
    ensures forall i :: 0 <= i < |ms| ==> ps[i] == ToPrompt(ms[i])
  {
    seq(|ms|, i requires 0 <= i < |ms| => ToPrompt(ms[i]))
  }

  /** Python's truthiness of an optional string: present and non-empty. */
  predicate Truthy(s: Option<string>) {
    s.Some? && s.value != ""
  }

  /** Concatenation of a sequence of text fragments. */
  function Concat(ss: seq<string>): string
  {
    if ss == [] then "" else ss[0] + Concat(ss[1..])
  }

  lemma {:induction false} ConcatAppend(a: seq<string>, b: seq<string>)
    ensures Concat(a + b) == Concat(a) + Concat(b)
  {
    if a == [] {
      assert a + b == b;
    } else {
      assert (a + b)[1..] == a[1..] + b;
      ConcatAppend(a[1..], b);
    }
  }

  /** Index of the first occurrence of `c` in `s`, or |s| when there is none
      (Python's `str.find`, with -1 written as |s|). */
  function FindChar(s: string, c: char): (k: nat)
    ensures k <= |s|
    ensures k < |s| ==> s[k] == c
    ensures forall j :: 0 <= j < k ==> s[j] != c
  {
    if s == [] then 0
    else if s[0] == c then 0
    else 1 + FindChar(s[1..], c)
  }
}
