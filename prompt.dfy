/** The prompt that the question-answering request sends to the chat model:
    a "Context:" header, every retrieved chunk text followed by a rule, and
    the question followed by a rule and an "Answer:" cue. */
module Prompt {
  import opened Results

  const Header: string := "Context:\n"
  /** Ends every context block and the question line. */
  const Rule: string := "\n---\n"

  /** The context blocks, one per retrieved text, in result order. */
  function Blocks(texts: seq<string>): string
  {
    if texts == [] then ""
    else Blocks(texts[..|texts| - 1]) + texts[|texts| - 1] + Rule
  }

  /** The question line and the answer cue that close every prompt. */
  function Tail(q: string): string
  {
    "Question:" + q + Rule + "Answer:"
  }

  /** Total length of the context blocks: each text plus its rule. */
  function Span(texts: seq<string>): nat
  {
    if texts == [] then 0 else Span(texts[..|texts| - 1]) + |texts[|texts| - 1]| + |Rule|
  }

  lemma {:induction false} BlocksLength(texts: seq<string>)
    ensures |Blocks(texts)| == Span(texts)
  {
    if texts != [] {
      BlocksLength(texts[..|texts| - 1]);
    }
  }

  /** The prompt built from the retrieved texts and the question. */
  function AssemblePrompt(texts: seq<string>, q: string): (p: string)
    ensures |p| == 30 + Span(texts) + |q|
    ensures p[..9] == "Context:\n"
    ensures p[|p| - |q| - 21..] == "Question:" + q + "\n---\nAnswer:"
    ensures texts == [] ==> p == "Context:\nQuestion:" + q + "\n---\nAnswer:"
    ensures |texts| == 1 ==> p == "Context:\n" + texts[0] + "\n---\nQuestion:" + q + "\n---\nAnswer:"
  {
    BlocksLength(texts);
    assert |texts| == 1 ==> texts[..0] == [];
    Header + Blocks(texts) + Tail(q)
  }

  /** The blocks of a prefix of the results are a prefix of the blocks. */
  lemma {:induction false} BlocksPrefix(texts: seq<string>, j: nat)
    requires j <= |texts|
    ensures Blocks(texts[..j]) <= Blocks(texts)
  {
    if j < |texts| {
      var n := |texts| - 1;
      assert texts[..n][..j] == texts[..j];
      BlocksPrefix(texts[..n], j);
    } else {
      assert texts[..j] == texts;
    }
  }

  /** Each retrieved text sits in the prompt at the offset given by the
      texts before it, and is followed by the rule. */
  lemma {:induction false} ContextInOrder(texts: seq<string>, q: string, i: nat)
    requires i < |texts|
    ensures var p := AssemblePrompt(texts, q);
            var o := 9 + Span(texts[..i]);
            o + |texts[i]| + 5 <= |p| - |q| - 21 &&
            p[o..o + |texts[i]|] == texts[i] &&
            p[o + |texts[i]|..o + |texts[i]| + 5] == "\n---\n"
  {
    var p := AssemblePrompt(texts, q);
    var pre := Blocks(texts[..i + 1]);
    BlocksPrefix(texts, i + 1);
    assert texts[..i + 1][..i] == texts[..i];
    assert pre == Blocks(texts[..i]) + texts[i] + Rule;
    BlocksLength(texts[..i]);
    BlocksLength(texts);
    var o := 9 + Span(texts[..i]);
    assert p == Header + Blocks(texts) + Tail(q);
    assert Blocks(texts) == pre + Blocks(texts)[|pre|..];
    assert p == Header + Blocks(texts[..i]) + texts[i] + Rule + Blocks(texts)[|pre|..] + Tail(q);
  }

  /** The text between the header and the closing question line of a prompt
      for question q, if the prompt has that shape. */
  function ContextOf(p: string, q: string): (c: Option<string>)
    ensures c.Some? ==> p == "Context:\n" + c.value + "\n---\nQuestion:" + q + "\n---\nAnswer:"
  {
    var close := Rule + Tail(q);
    if |p| >= |Header| + |close| && p[..|Header|] == Header && p[|p| - |close|..] == close
    then
      var c := p[|Header|..|p| - |close|];
      assert p == p[..|Header|] + c + p[|p| - |close|..];
      Some(c)
    else None
  }

  /** With one retrieved text, exactly that text stands between
      "Context:\n" and "\n---\nQuestion:"; with none, there is no block. */
  lemma {:induction false} ContextRoundTrip(t: string, q: string)
    ensures ContextOf(AssemblePrompt([t], q), q) == Some(t)
    ensures ContextOf(AssemblePrompt([], q), q) == None
  {
    var p := AssemblePrompt([t], q);
    var close := Rule + Tail(q);
    assert p == Header + t + close;
    assert p[..|Header|] == Header;
    assert p[|p| - |close|..] == close;
    assert p[|Header|..|p| - |close|] == t;
  }

  /** The handler's loop: start with the header, append each
      result's text and a rule, then the question line. */
  method BuildPrompt(texts: seq<string>, q: string) returns (prompt: string)
    ensures prompt == AssemblePrompt(texts, q)
  {
    prompt := "Context:\n";
    for i := 0 to |texts|
      invariant prompt == Header + Blocks(texts[..i])
    {
      assert texts[..i + 1][..i] == texts[..i];
      prompt := prompt + texts[i] + "\n---\n";
    }
    assert texts[..|texts|] == texts;
    prompt := prompt + "Question:" + q + "\n---\n" + "Answer:";
  }
}
