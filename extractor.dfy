/**
 * extractor.py: the prompt, the cleaning of the language model's reply, and the
 * parse-or-empty step of `extract_transactions_with_llm`, plus `parse_pdf`.
 * The model call, `json.loads` and the PDF text extraction are parameters.
 */
module Extractor {
  import opened Wrappers
  import opened Text
  import opened Frames

  /** The fixed instruction text before the statement text. */
  const PromptHeader: string :=
    "\nYou are a financial assistant. Extract structured transaction data from the bank statement text below.\n"
    + "Each transaction should include the following fields: Date, Amount, Type (Income/Expense), and Description.\n"
    + "Return the result as a JSON list of objects.\n\nBank Statement Text:\n"

  /** What the f-string holds after the statement text. */
  const PromptTrailer: string := "\n    "

  /** The prompt: the instruction header, then the text verbatim, then the trailer. */
  function Prompt(text: string): (r: string)
    ensures |r| == |PromptHeader| + |text| + |PromptTrailer|
    ensures r[..|PromptHeader|] == PromptHeader
    ensures r[|PromptHeader|..|PromptHeader| + |text|] == text
  {
    PromptHeader + text + PromptTrailer
  }

  /** The text can be read back from the prompt: different texts give different prompts. */
  lemma PromptInjective(a: string, b: string)
    requires Prompt(a) == Prompt(b)
    ensures a == b
  {
    assert a == Prompt(a)[|PromptHeader|..|PromptHeader| + |a|];
  }

  const Fence: string := "```"

  predicate IsAsciiLetter(c: char) {
    'a' <= c <= 'z' || 'A' <= c <= 'Z'
  }

  /** The length of the longest run of ASCII letters at the start of `s` (`[a-zA-Z]*`, greedy). */
  function LetterRun(s: string): (n: nat)
    ensures n <= |s|
    ensures forall i :: 0 <= i < n ==> IsAsciiLetter(s[i])
    ensures n == |s| || !IsAsciiLetter(s[n])
  {
    if s != [] && IsAsciiLetter(s[0]) then 1 + LetterRun(s[1..]) else 0
  }

  /**
   * `re.sub(r"^```[a-zA-Z]*\n?", "", s)`: removes the opening fence, its language tag and
   * at most one newline; a string that does not start with the fence is kept.
   */
  function RemoveOpeningFence(s: string): (r: string)
    ensures !StartsWith(s, Fence) ==> r == s
    ensures StartsWith(s, Fence) ==>
      var t := 3 + LetterRun(s[3..]);
      && (forall i :: 3 <= i < t ==> IsAsciiLetter(s[i]))
      && (t == |s| || !IsAsciiLetter(s[t]))
      && r == if t < |s| && s[t] == '\n' then s[t + 1..] else s[t..]
  {
    if !StartsWith(s, Fence) then s
    else
      var t := 3 + LetterRun(s[3..]);
      if t < |s| && s[t] == '\n' then s[t + 1..] else s[t..]
  }

  predicate EndsWith(s: string, suffix: string) {
    |suffix| <= |s| && s[|s| - |suffix|..] == suffix
  }

  /**
   * `re.sub(r"\n?```$", "", s)`: removes a closing fence and one newline before it. Python's
   * `$` also matches just before a final newline, which is then kept.
   */
  function RemoveClosingFence(s: string): (r: string)
    ensures EndsWith(s, "\n```") ==> r == s[..|s| - 4]
    ensures !EndsWith(s, "\n```") && EndsWith(s, Fence) ==> r == s[..|s| - 3]
    ensures !EndsWith(s, Fence) && EndsWith(s, "\n```\n") ==> r == s[..|s| - 5] + "\n"
    ensures !EndsWith(s, Fence) && !EndsWith(s, "\n```\n") && EndsWith(s, "```\n") ==> r == s[..|s| - 4] + "\n"
    ensures !EndsWith(s, Fence) && !EndsWith(s, "```\n") ==> r == s
  {
    if EndsWith(s, "\n```") then s[..|s| - 4]
    else if EndsWith(s, Fence) then s[..|s| - 3]
    else if EndsWith(s, "\n```\n") then s[..|s| - 5] + "\n"
    else if EndsWith(s, "```\n") then s[..|s| - 4] + "\n"
    else s
  }

  /** Lines 37-44: strip the reply and, when it starts with a fence, remove the fences and strip again. */
  function CleanResponse(raw: string): (r: string)
    ensures Trimmed(r)
    ensures !StartsWith(Strip(raw), Fence) ==> r == Strip(raw)
  {
    var content := Strip(raw);
    if StartsWith(content, Fence) then Strip(RemoveClosingFence(RemoveOpeningFence(content)))
    else content
  }

  /**
   * The `try` block of `extract_transactions_with_llm(text)`: `generate` is the model call
   * (None when it raises), `loads` is `json.loads` (None when it raises). The frame of a reply
   * that gets through every step; None when a step raises or the cleaned reply is empty.
   */
  function TryExtract(text: string, generate: string -> Option<string>, loads: string -> Option<Value>): Option<Frame> {
    match generate(Prompt(text))
    case None => None
    case Some(raw) =>
      var content := CleanResponse(raw);
      if content == [] then None
      else match loads(content)
        case None => None
        case Some(v) => FromJson(v)
  }

  /**
   * `extract_transactions_with_llm(text)`: the frame the reply makes, and the empty frame for
   * an empty reply and for every exception.
   */
  function ExtractTransactionsWithLlm(text: string, generate: string -> Option<string>, loads: string -> Option<Value>): (r: Frame)
    // the model call raises
    ensures generate(Prompt(text)).None? ==> r == EmptyFrame
    // the cleaned reply is empty: the parser is not called
    ensures generate(Prompt(text)).Some? && CleanResponse(generate(Prompt(text)).value) == [] ==> r == EmptyFrame
    // `json.loads` raises
    ensures (generate(Prompt(text)).Some? && CleanResponse(generate(Prompt(text)).value) != [] &&
             loads(CleanResponse(generate(Prompt(text)).value)).None?) ==> r == EmptyFrame
    // `pd.DataFrame` rejects the parsed value
    ensures (generate(Prompt(text)).Some? && CleanResponse(generate(Prompt(text)).value) != [] &&
             loads(CleanResponse(generate(Prompt(text)).value)).Some? &&
             FromJson(loads(CleanResponse(generate(Prompt(text)).value)).value).None?) ==> r == EmptyFrame
    // every step succeeds: the frame of the parsed reply
    ensures (generate(Prompt(text)).Some? && CleanResponse(generate(Prompt(text)).value) != [] &&
             loads(CleanResponse(generate(Prompt(text)).value)).Some? &&
             FromJson(loads(CleanResponse(generate(Prompt(text)).value)).value).Some?) ==>
      r == FromJson(loads(CleanResponse(generate(Prompt(text)).value)).value).value
  {
    match TryExtract(text, generate, loads)
    case None => EmptyFrame
    case Some(f) => f
  }

  /** `parse_pdf(file)`: the text of the PDF (None when reading it raises) handed to the extractor. */
  function ParsePdf(file: seq<bv8>, pdfText: seq<bv8> -> Option<string>,
                    generate: string -> Option<string>, loads: string -> Option<Value>): (r: Option<Frame>)
    ensures r.None? <==> pdfText(file).None?
    ensures r.Some? ==> r.value == ExtractTransactionsWithLlm(pdfText(file).value, generate, loads)
  {
    match pdfText(file)
    case None => None
    case Some(text) => Some(ExtractTransactionsWithLlm(text, generate, loads))
  }

  // ---------------------------------------------------------------------------
  // Properties of the cleaning step

  /** A body wrapped in a Markdown code fence with language tag `tag`. */
  function Fenced(tag: string, body: string): string {
    Fence + tag + "\n" + (body + "\n```")
  }

  /** The opening fence, a letter tag and one newline are removed, and nothing more. */
  lemma OpeningFenceRemoved(tag: string, rest: string)
    requires forall i :: 0 <= i < |tag| ==> IsAsciiLetter(tag[i])
    ensures RemoveOpeningFence(Fence + tag + "\n" + rest) == rest
  {
    var s := Fence + tag + "\n" + rest;
    assert StartsWith(s, Fence) by { assert s[..3] == Fence; }
    assert s[3..] == tag + ("\n" + rest);
    LetterRunOfTag(tag, "\n" + rest);
    assert s[3 + |tag|] == '\n';
    assert s[3 + |tag| + 1..] == rest;
  }

  /** A closing fence on its own line is removed together with that newline. */
  lemma ClosingFenceRemoved(body: string)
    ensures RemoveClosingFence(body + "\n```") == body
  {
    var s := body + "\n```";
    assert EndsWith(s, "\n```") by { assert s[|s| - 4..] == "\n```"; }
    assert s[..|s| - 4] == body;
  }

  /**
   * Fence round trip: a reply that wraps a trimmed body in a fence with a language tag,
   * whatever white space surrounds it, cleans to exactly the body, as the bare body does.
   */
  lemma FenceRoundTrip(body: string, tag: string, before: string, after: string)
    requires Trimmed(body) && !StartsWith(body, Fence)
    requires forall i :: 0 <= i < |tag| ==> IsAsciiLetter(tag[i])
    requires AllSpace(before) && AllSpace(after)
    ensures CleanResponse(before + Fenced(tag, body) + after) == body
    ensures CleanResponse(body) == body
  {
    var fenced := Fenced(tag, body);
    var reply := before + fenced + after;
    StripFenced(before, tag, body, after);
    Unfence(tag, body);
    CleanFenced(reply, fenced, body);
    StripTrimmed(body);
  }

  /** The reply stripped is the fenced text, which starts with the fence. */
  lemma StripFenced(before: string, tag: string, body: string, after: string)
    requires AllSpace(before) && AllSpace(after)
    ensures StartsWith(Fenced(tag, body), Fence) && Strip(before + Fenced(tag, body) + after) == Fenced(tag, body)
  {
    FencedEnds(tag, body);
    StripAround(before, Fenced(tag, body), after);
  }

  /** A fenced text starts with the fence and, ending in a backtick, has no white space around it. */
  lemma FencedEnds(tag: string, body: string)
    ensures StartsWith(Fenced(tag, body), Fence) && Trimmed(Fenced(tag, body))
  {
    var fenced := Fenced(tag, body);
    assert fenced[..3] == Fence;
    assert fenced[0] == '`';
    assert fenced[|fenced| - 1] == '`';
  }

  lemma CleanFenced(reply: string, fenced: string, body: string)
    requires Strip(reply) == fenced && StartsWith(fenced, Fence)
    requires Strip(RemoveClosingFence(RemoveOpeningFence(fenced))) == body
    ensures CleanResponse(reply) == body
  {
  }

  /** Removing both fences from a fenced trimmed body and stripping gives the body. */
  lemma Unfence(tag: string, body: string)
    requires Trimmed(body)
    requires forall i :: 0 <= i < |tag| ==> IsAsciiLetter(tag[i])
    ensures Strip(RemoveClosingFence(RemoveOpeningFence(Fenced(tag, body)))) == body
  {
    OpeningFenceRemoved(tag, body + "\n```");
    ClosingFenceRemoved(body);
    StripTrimmed(body);
  }

  lemma {:induction false} LetterRunOfTag(tag: string, rest: string)
    requires forall i :: 0 <= i < |tag| ==> IsAsciiLetter(tag[i])
    requires rest != [] && !IsAsciiLetter(rest[0])
    ensures LetterRun(tag + rest) == |tag|
  {
    if tag != [] {
      assert (tag + rest)[1..] == tag[1..] + rest;
      LetterRunOfTag(tag[1..], rest);
    } else {
      assert tag + rest == rest;
    }
  }

  /** A bare fence cleans to the empty string, and so does a fence around an empty body. */
  lemma BareFenceIsEmpty(bare: string, tag: string)
    requires bare == Fence
    requires forall i :: 0 <= i < |tag| ==> IsAsciiLetter(tag[i])
    ensures CleanResponse(bare) == []
    ensures CleanResponse(Fenced(tag, [])) == []
  {
    BareFenceCleans(bare);
    EmptyFencedCleans(tag);
  }

  lemma BareFenceCleans(bare: string)
    requires bare == Fence
    ensures CleanResponse(bare) == []
  {
    assert Strip(bare) == bare by {
      assert Trimmed(bare);
      StripTrimmed(bare);
    }
    assert StartsWith(bare, Fence);
    assert RemoveOpeningFence(bare) == [] by {
      assert bare[3..] == [];
    }
    assert RemoveClosingFence([]) == [];
    StripTrimmed([]);
  }

  lemma EmptyFencedCleans(tag: string)
    requires forall i :: 0 <= i < |tag| ==> IsAsciiLetter(tag[i])
    ensures CleanResponse(Fenced(tag, [])) == []
  {
    StripFenced([], tag, [], []);
    assert [] + Fenced(tag, []) + [] == Fenced(tag, []);
    Unfence(tag, []);
    CleanFenced(Fenced(tag, []), Fenced(tag, []), []);
  }

  // ---------------------------------------------------------------------------
  // Properties of the whole extraction

  /** An empty cleaned reply gives the empty frame whatever the JSON parser would do: it is not called. */
  lemma EmptyReplySkipsParser(text: string, generate: string -> Option<string>, loads1: string -> Option<Value>, loads2: string -> Option<Value>)
    requires generate(Prompt(text)).Some? && CleanResponse(generate(Prompt(text)).value) == []
    ensures ExtractTransactionsWithLlm(text, generate, loads1) == EmptyFrame
    ensures ExtractTransactionsWithLlm(text, generate, loads2) == EmptyFrame
  {
  }

  /** A parsed JSON list of objects gives one row per object, in order. */
  lemma RowsFollowObjects(text: string, generate: string -> Option<string>, loads: string -> Option<Value>, items: seq<Value>)
    requires generate(Prompt(text)).Some?
    requires CleanResponse(generate(Prompt(text)).value) != []
    requires loads(CleanResponse(generate(Prompt(text)).value)) == Some(List(items))
    requires forall i :: 0 <= i < |items| ==> items[i].Object?
    ensures var f := ExtractTransactionsWithLlm(text, generate, loads);
      |f.rows| == |items| && forall i :: 0 <= i < |items| ==> f.rows[i] == items[i].fields
  {
    ObjectRows(items);
    assert TryExtract(text, generate, loads) == FromJson(List(items));
  }

  lemma ObjectRows(items: seq<Value>)
    requires forall i :: 0 <= i < |items| ==> items[i].Object?
    ensures FromJson(List(items)).Some?
    ensures var f := FromJson(List(items)).value;
      |f.rows| == |items| && forall i :: 0 <= i < |items| ==> f.rows[i] == items[i].fields
  {
    var r := FromJson(List(items));
    forall i | 0 <= i < |items| ensures r.value.rows[i] == items[i].fields {
      assert items[i] == Object(r.value.rows[i]);
    }
  }

  /** Fencing the reply changes nothing: a fenced body and the bare body extract the same frame. */
  lemma FencedReplySameAsPlain(text: string, body: string, tag: string,
                               fenced: string -> Option<string>, plain: string -> Option<string>, loads: string -> Option<Value>)
    requires Trimmed(body) && !StartsWith(body, Fence)
    requires forall i :: 0 <= i < |tag| ==> IsAsciiLetter(tag[i])
    requires fenced(Prompt(text)) == Some(Fenced(tag, body))
    requires plain(Prompt(text)) == Some(body)
    ensures ExtractTransactionsWithLlm(text, fenced, loads) == ExtractTransactionsWithLlm(text, plain, loads)
  {
    FencedCleansToBody(body, tag);
    SameCleanReplySameFrame(text, fenced, plain, loads);
  }

  lemma FencedCleansToBody(body: string, tag: string)
    requires Trimmed(body) && !StartsWith(body, Fence)
    requires forall i :: 0 <= i < |tag| ==> IsAsciiLetter(tag[i])
    ensures CleanResponse(Fenced(tag, body)) == CleanResponse(body)
  {
    FenceRoundTrip(body, tag, [], []);
    assert [] + Fenced(tag, body) + [] == Fenced(tag, body);
  }

  /** Two replies that clean to the same text extract the same frame. */
  lemma SameCleanReplySameFrame(text: string, g1: string -> Option<string>, g2: string -> Option<string>, loads: string -> Option<Value>)
    requires g1(Prompt(text)).Some? && g2(Prompt(text)).Some?
    requires CleanResponse(g1(Prompt(text)).value) == CleanResponse(g2(Prompt(text)).value)
    ensures ExtractTransactionsWithLlm(text, g1, loads) == ExtractTransactionsWithLlm(text, g2, loads)
  {
  }
}
