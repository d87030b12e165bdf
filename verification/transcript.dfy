/** The running conversation handed to the reward model: one user turn with
    the scored text and one assistant turn with the placeholder per step. */
module Transcript {

  datatype Role = User | Assistant

  datatype Turn = Turn(role: Role, content: string)

  /** The content of every assistant turn. */
  const Placeholder: string := "+"

  /** The transcript after the given texts have been appended, in order. */
  function Conversation(texts: seq<string>): (c: seq<Turn>)
    ensures |c| == 2 * |texts|
    decreases |texts|
  {
    if texts == [] then []
    else Conversation(texts[..|texts| - 1])
         + [Turn(User, texts[|texts| - 1]), Turn(Assistant, Placeholder)]
  }

  /** Turn 2i is the user turn holding the i-th text; turn 2i+1 is the
      assistant turn holding the placeholder. */
  lemma {:induction false} ConversationAlternates(texts: seq<string>, i: nat)
    requires i < |texts|
    ensures Conversation(texts)[2 * i] == Turn(User, texts[i])
    ensures Conversation(texts)[2 * i + 1] == Turn(Assistant, Placeholder)
    decreases |texts|
  {
    var n := |texts| - 1;
    if i < n {
      ConversationAlternates(texts[..n], i);
    }
  }

  /** The transcript of a prefix of the texts is a prefix of the transcript
      of all of them: the conversation only grows. */
  lemma {:induction false} ConversationExtends(texts: seq<string>, k: nat)
    requires k <= |texts|
    ensures Conversation(texts[..k]) <= Conversation(texts)
    decreases |texts|
  {
    if k < |texts| {
      var n := |texts| - 1;
      assert texts[..n][..k] == texts[..k];
      ConversationExtends(texts[..n], k);
    } else {
      assert texts[..k] == texts;
    }
  }

  /** One step of growth: appending a text appends exactly its two turns. */
  lemma ConversationAppend(texts: seq<string>, t: string)
    ensures Conversation(texts + [t])
         == Conversation(texts) + [Turn(User, t), Turn(Assistant, Placeholder)]
  {
  }
}
