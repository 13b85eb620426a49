/** The token-cost estimator: the two rate tables and the corpus and prompt
    estimates built on them.

    A result is a pair (cost, code) where code 0 means success and code -1
    means "not found"; every "not found" result carries cost 0. Costs are
    exact: tokens times the rate per million tokens, divided by one million.
    An error raised by decoding or encoding a text is not caught here, so
    each estimate either returns its pair or is `Raised`.
 */
module EstimateCost {
  import opened Tokenization
  import opened Corpus

  /** Price in dollars per one million tokens of each embedding model. */
  const EmbeddingRate: map<string, real> := map["text-embedding-3-small" := 0.02]

  /** Price in dollars per one million tokens of each chat model, per usage category. */
  const PromptRate: map<string, map<string, real>> :=
    map["gpt-3.5-turbo" := map["input" := 3.0, "output" := 6.0, "training" := 8.0]]

  const Million: real := 1_000_000.0

  /** The rate tables: which models and categories are priced, at what price. */
  lemma RateTables()
    ensures EmbeddingRate.Keys == {"text-embedding-3-small"}
    ensures EmbeddingRate["text-embedding-3-small"] == 0.02
    ensures PromptRate.Keys == {"gpt-3.5-turbo"}
    ensures PromptRate["gpt-3.5-turbo"].Keys == {"input", "output", "training"}
    ensures forall m | m in EmbeddingRate :: EmbeddingRate[m] >= 0.0
    ensures forall m, c | m in PromptRate && c in PromptRate[m] :: PromptRate[m][c] >= 0.0
  {
  }

  /** One step of the walk: a Markdown file sets the flag before it is read;
      a readable one adds its tokens; one that does not decode, or whose
      text the tokenizer refuses, raises; every other file is passed over. */
  method VisitFile(file: Entry, model: string, tk: Tokenizer, total0: nat, found0: bool)
    returns (raised: bool, total: nat, found: bool)
    requires tk.Knows(model)
    ensures raised == Aborts(file, model, tk)
    ensures !raised ==> total == total0 + Contribution(file, model, tk)
    ensures !raised ==> found == (found0 || IsMarkdown(file.name))
  {
    total, found := total0, found0;
    if IsMarkdown(file.name) {
      found := true;
      match file.content {
        case Text(content) =>
          if !tk.Accepts(model, content) {
            return true, total, found;
          }
          total := total + tk.Count(model, content);
        case ReadError =>
          // reported and skipped
        case DecodeError =>
          return true, total, found;
      }
    }
    return false, total, found;
  }

  /** Visits the files of one directory, continuing from the running total
      and flag of the files visited before (`seen`). Returns whether a file
      raised; otherwise the total and flag after these files as well. */
  method VisitFiles(files: seq<Entry>, model: string, tk: Tokenizer, ghost seen: seq<Entry>, total0: nat, found0: bool)
    returns (raised: bool, total: nat, found: bool)
    requires tk.Knows(model)
    requires !AnyAborts(seen, model, tk)
    requires total0 == ReadableTokens(seen, model, tk) && found0 == AnyMarkdown(seen)
    ensures raised == AnyAborts(seen + files, model, tk)
    ensures !raised ==> total == ReadableTokens(seen + files, model, tk) && found == AnyMarkdown(seen + files)
  {
    total, found := total0, found0;
    var j := 0;
    assert seen + files[..j] == seen;
    while j < |files|
      invariant 0 <= j <= |files|
      invariant !AnyAborts(seen + files[..j], model, tk)
      invariant total == ReadableTokens(seen + files[..j], model, tk)
      invariant found == AnyMarkdown(seen + files[..j])
    {
      var stop;
      stop, total, found := VisitFile(files[j], model, tk, total, found);
      PrefixStep(seen, files, j);
      VisitOne(seen + files[..j], files[j], model, tk);
      if stop {
        AbortsInRest(seen, files, j, model, tk);
        return true, total, found;
      }
      j := j + 1;
    }
    assert files[..j] == files;
    return false, total, found;
  }

  /** Counts the tokens of every Markdown file the walk visits, skipping the
      files whose read fails with an operating-system error; (0, -1) when no
      Markdown file was visited. A Markdown file that does not decode, or
      whose text the tokenizer refuses, ends the walk with an error. The
      tokenizer lookup comes before the walk, so it must succeed even for an
      empty folder. */
  method GetNumTokens(walk: seq<Directory>, model: string, tk: Tokenizer) returns (r: Outcome<(nat, int)>)
    requires tk.Knows(model)
    ensures r == NumTokens(Files(walk), model, tk)
    ensures r.Raised? <==> AnyAborts(Files(walk), model, tk)
    ensures r.Returned? ==> (r.value.1 == -1 <==> !AnyMarkdown(Files(walk)))
  {
    var total: nat := 0;
    var found := false;
    var i := 0;
    while i < |walk|
      invariant 0 <= i <= |walk|
      invariant !AnyAborts(Files(walk[..i]), model, tk)
      invariant total == ReadableTokens(Files(walk[..i]), model, tk)
      invariant found == AnyMarkdown(Files(walk[..i]))
    {
      WalkOne(walk, i);
      var raised;
      raised, total, found := VisitFiles(walk[i].files, model, tk, Files(walk[..i]), total, found);
      if raised {
        AbortsInPrefix(walk, i + 1, model, tk);
        return Raised;
      }
      i := i + 1;
    }
    assert walk[..i] == walk;
    if !found {
      return Returned((0, -1));
    }
    return Returned((total, 0));
  }

  /** Embedding cost of the corpus. The rate lookup is reached only once the
      walk has returned and found a Markdown file, and is not guarded there. */
  function EstimateEmbeddingCost(walk: seq<Directory>, model: string, tk: Tokenizer): (r: Outcome<(real, int)>)
    requires tk.Knows(model)
    requires AnyMarkdown(Files(walk)) && !AnyAborts(Files(walk), model, tk) ==> model in EmbeddingRate
    ensures r.Raised? <==> AnyAborts(Files(walk), model, tk)
    ensures r.Returned? ==> r.value.1 == 0 || r.value.1 == -1
    ensures r.Returned? ==> r.value.0 >= 0.0
    ensures r.Returned? ==> (r.value.1 == -1 <==> !AnyMarkdown(Files(walk)))
    ensures r.Returned? && r.value.1 == -1 ==> r.value.0 == 0.0
    ensures r.Returned? && r.value.1 == 0 ==>
              r.value.0 == ReadableTokens(Files(walk), model, tk) as real * EmbeddingRate[model] / Million
  {
    match NumTokens(Files(walk), model, tk)
    case Raised => Raised
    case Returned((numTokens, code)) =>
      if code == -1 then Returned((0.0, -1))
      else Returned((numTokens as real * EmbeddingRate[model] / Million, 0))
  }

  /** Token count of one prompt; it never reports an error code, but encoding
      a text the tokenizer refuses raises. */
  function GetNumTokensForPrompt(text: string, model: string, tk: Tokenizer): (r: Outcome<(nat, int)>)
    requires tk.Knows(model)
    ensures r.Raised? <==> !tk.Accepts(model, text)
    ensures r.Returned? ==> r.value.1 == 0
  {
    if !tk.Accepts(model, text) then Raised else Returned((tk.Count(model, text), 0))
  }

  /** Cost of one prompt under a usage category of a chat model. An
      unregistered category is "not found" before the tokenizer is consulted;
      an unregistered model is not guarded. */
  function EstimatePromptCost(text: string, model: string, promptType: string, tk: Tokenizer): (r: Outcome<(real, int)>)
    requires model in PromptRate
    requires promptType in PromptRate[model] ==> tk.Knows(model)
    ensures r.Raised? <==> promptType in PromptRate[model] && !tk.Accepts(model, text)
    ensures r.Returned? ==> r.value.1 == 0 || r.value.1 == -1
    ensures r.Returned? ==> r.value.0 >= 0.0
    ensures r.Returned? ==> (r.value.1 == -1 <==> promptType !in PromptRate[model])
    ensures r.Returned? && r.value.1 == -1 ==> r.value.0 == 0.0
    ensures r.Returned? && r.value.1 == 0 ==>
              r.value.0 == tk.Count(model, text) as real * PromptRate[model][promptType] / Million
  {
    if promptType !in PromptRate[model] then Returned((0.0, -1))
    else
      match GetNumTokensForPrompt(text, model, tk)
      case Raised => Raised
      case Returned((numTokens, code)) =>
        if code == -1 then Returned((0.0, -1))
        else Returned((numTokens as real * PromptRate[model][promptType] / Million, 0))
  }

  // ---------------------------------------------------------------------
  // Properties of the estimates

  /** An unregistered usage category is answered without the tokenizer: the
      result is the same whatever the tokenizer is, even one that knows no
      model and accepts no text. */
  lemma PromptNotFoundSkipsTokenizer(text: string, model: string, promptType: string, tk: Tokenizer, other: Tokenizer)
    requires model in PromptRate
    requires promptType !in PromptRate[model]
    ensures EstimatePromptCost(text, model, promptType, tk) == EstimatePromptCost(text, model, promptType, other)
         == Returned((0.0, -1))
  {
  }

  /** One million tokens of a registered category cost exactly its rate. */
  lemma MillionPromptTokensCostTheRate(text: string, model: string, promptType: string, tk: Tokenizer)
    requires model in PromptRate && promptType in PromptRate[model]
    requires tk.Knows(model) && tk.Accepts(model, text) && tk.Count(model, text) == 1_000_000
    ensures EstimatePromptCost(text, model, promptType, tk) == Returned((PromptRate[model][promptType], 0))
  {
  }

  /** The rates of the chat model: one million tokens cost 3 as input, 6 as
      output and 8 for training; "summarization" is not a category. */
  lemma ChatRateInstances(text: string, tk: Tokenizer)
    requires tk.Knows("gpt-3.5-turbo") && tk.Accepts("gpt-3.5-turbo", text)
    requires tk.Count("gpt-3.5-turbo", text) == 1_000_000
    ensures EstimatePromptCost(text, "gpt-3.5-turbo", "input", tk) == Returned((3.0, 0))
    ensures EstimatePromptCost(text, "gpt-3.5-turbo", "output", tk) == Returned((6.0, 0))
    ensures EstimatePromptCost(text, "gpt-3.5-turbo", "training", tk) == Returned((8.0, 0))
    ensures EstimatePromptCost(text, "gpt-3.5-turbo", "summarization", tk) == Returned((0.0, -1))
  {
    MillionPromptTokensCostTheRate(text, "gpt-3.5-turbo", "input", tk);
    MillionPromptTokensCostTheRate(text, "gpt-3.5-turbo", "output", tk);
    MillionPromptTokensCostTheRate(text, "gpt-3.5-turbo", "training", tk);
    assert "summarization" !in PromptRate["gpt-3.5-turbo"];
  }

  /** The embedding estimate depends on the walk only through its token count. */
  lemma EmbeddingCostFromCount(walk: seq<Directory>, other: seq<Directory>, model: string, tk: Tokenizer)
    requires tk.Knows(model)
    requires NumTokens(Files(walk), model, tk) == NumTokens(Files(other), model, tk)
    requires AnyMarkdown(Files(walk)) && !AnyAborts(Files(walk), model, tk) ==> model in EmbeddingRate
    ensures AnyMarkdown(Files(other)) && !AnyAborts(Files(other), model, tk) ==> model in EmbeddingRate
    ensures EstimateEmbeddingCost(walk, model, tk) == EstimateEmbeddingCost(other, model, tk)
  {
  }

  /** The embedding estimate, error included, does not depend on the order of the walk. */
  lemma EmbeddingCostOrderIndependent(walk: seq<Directory>, other: seq<Directory>, model: string, tk: Tokenizer)
    requires tk.Knows(model)
    requires multiset(Files(walk)) == multiset(Files(other))
    requires AnyMarkdown(Files(walk)) && !AnyAborts(Files(walk), model, tk) ==> model in EmbeddingRate
    ensures AnyMarkdown(Files(other)) && !AnyAborts(Files(other), model, tk) ==> model in EmbeddingRate
    ensures EstimateEmbeddingCost(walk, model, tk) == EstimateEmbeddingCost(other, model, tk)
  {
    NumTokensPermutation(Files(walk), Files(other), model, tk);
    EmbeddingCostFromCount(walk, other, model, tk);
  }

  /** A walk whose Markdown files all fail to read costs nothing but is a
      success, (0, 0), not "not found". */
  lemma UnreadableCorpusIsFound(walk: seq<Directory>, model: string, tk: Tokenizer)
    requires tk.Knows(model) && model in EmbeddingRate
    requires AnyMarkdown(Files(walk))
    requires forall e | e in Files(walk) && IsMarkdown(e.name) :: e.content.ReadError?
    ensures EstimateEmbeddingCost(walk, model, tk) == Returned((0.0, 0))
  {
    UnreadableMarkdownStillFound(Files(walk), model, tk);
  }

  /** The suffix test on the file names of the scenarios below. */
  lemma ScenarioNames()
    ensures IsMarkdown("a.md") && IsMarkdown("b.md")
    ensures !IsMarkdown("notes.txt") && !IsMarkdown("README.MD")
  {
    assert "a.md"[1..] == ".md" && "b.md"[1..] == ".md" && "notes.txt"[6..] == "txt";
    UpperCaseExtensionIgnored();
  }

  /** A corpus with no Markdown file is estimated "not found", for any
      model the tokenizer knows, priced or not. */
  lemma NoMarkdownEmbeddingNotFound(walk: seq<Directory>, model: string, tk: Tokenizer)
    requires tk.Knows(model)
    requires !AnyMarkdown(Files(walk))
    ensures EstimateEmbeddingCost(walk, model, tk) == Returned((0.0, -1))
  {
    NoMarkdownNotFound(Files(walk), model, tk);
  }

  /** Two Markdown files of 100 and 150 tokens beside a text file, under the
      small embedding model: 250 tokens at 0.02 per million. The text file is
      never opened, so its content does not matter. */
  lemma TwoFileCorpusCost(a: string, b: string, c: Content, tk: Tokenizer)
    requires tk.Knows("text-embedding-3-small")
    requires tk.Accepts("text-embedding-3-small", a) && tk.Count("text-embedding-3-small", a) == 100
    requires tk.Accepts("text-embedding-3-small", b) && tk.Count("text-embedding-3-small", b) == 150
    ensures EstimateEmbeddingCost(
              [Directory("data", [Entry("a.md", Text(a)), Entry("b.md", Text(b)), Entry("notes.txt", c)])],
              "text-embedding-3-small", tk)
         == Returned((0.000005, 0))
  {
    SingleDirectory(Directory("data", [Entry("a.md", Text(a)), Entry("b.md", Text(b)), Entry("notes.txt", c)]));
    TwoFileTokens(a, b, c, tk);
  }

  /** The token count of the corpus above: 250 tokens, found. */
  lemma TwoFileTokens(a: string, b: string, c: Content, tk: Tokenizer)
    requires tk.Knows("text-embedding-3-small")
    requires tk.Accepts("text-embedding-3-small", a) && tk.Count("text-embedding-3-small", a) == 100
    requires tk.Accepts("text-embedding-3-small", b) && tk.Count("text-embedding-3-small", b) == 150
    ensures NumTokens([Entry("a.md", Text(a)), Entry("b.md", Text(b)), Entry("notes.txt", c)], "text-embedding-3-small", tk)
         == Returned((250, 0))
  {
    var m := "text-embedding-3-small";
    var e0, e1, e2 := Entry("a.md", Text(a)), Entry("b.md", Text(b)), Entry("notes.txt", c);
    ScenarioNames();
    VisitTwo(e0, e1, m, tk);
    VisitOne([e0, e1], e2, m, tk);
    assert [e0, e1] + [e2] == [e0, e1, e2];
  }

  /** A Markdown file that does not decode makes the embedding estimate raise,
      although a readable Markdown file sits beside it. */
  lemma UndecodableCorpusRaises(b: string, model: string, tk: Tokenizer)
    requires tk.Knows(model)
    ensures AnyAborts(Files([Directory("data", [Entry("a.md", DecodeError), Entry("b.md", Text(b))])]), model, tk)
    ensures EstimateEmbeddingCost(
              [Directory("data", [Entry("a.md", DecodeError), Entry("b.md", Text(b))])], model, tk)
         == Raised
  {
    ScenarioNames();
    SingleDirectory(Directory("data", [Entry("a.md", DecodeError), Entry("b.md", Text(b))]));
    VisitTwo(Entry("a.md", DecodeError), Entry("b.md", Text(b)), model, tk);
  }

  /** A folder holding only a text file and an upper-case README.MD is "not
      found", even when neither decodes and the model has no embedding rate:
      neither file is opened. */
  lemma NoMarkdownCorpusNotFound(model: string, tk: Tokenizer)
    requires tk.Knows(model)
    ensures !AnyMarkdown(Files([Directory("data", [Entry("notes.txt", DecodeError), Entry("README.MD", DecodeError)])]))
    ensures !AnyAborts(Files([Directory("data", [Entry("notes.txt", DecodeError), Entry("README.MD", DecodeError)])]), model, tk)
    ensures EstimateEmbeddingCost([Directory("data", [Entry("notes.txt", DecodeError), Entry("README.MD", DecodeError)])], model, tk)
         == Returned((0.0, -1))
  {
    ScenarioNames();
    SingleDirectory(Directory("data", [Entry("notes.txt", DecodeError), Entry("README.MD", DecodeError)]));
    VisitTwo(Entry("notes.txt", DecodeError), Entry("README.MD", DecodeError), model, tk);
  }
}
