# Token-cost estimator of a markdown retrieval pipeline

This project models the cost estimator of a small retrieval-augmented-generation pipeline, in `estimate_cost.py`. The pipeline ingests a folder of Markdown notes into a vector index and answers questions with a chat model. It estimates the embedding cost before building the index (create_database.py:30), the prompt's input cost before the chat call (query_data.py:66) and its output cost after it (query_data.py:85). The query's own embedding is not estimated. Each estimate comes from token counts:

- **Corpus mode** walks the data folder and counts the tokens of every file whose name ends in `.md`.
  - The `try` around each read catches only `IOError`, the operating-system error of opening or reading a file. Such a file is reported and skipped.
  - A `.md` file whose bytes are not valid UTF-8 raises a decoding error, and that error escapes the walk.
  - So does a text the tokenizer refuses to encode, for example one holding a disallowed special token.
  - Otherwise the count returns `(0, -1)` ("not found") when no `.md` file was seen, and `(total, 0)` when one was. The embedding estimate multiplies the total by the embedding model's price per million tokens.
- **Prompt mode** looks up the usage category (`input`, `output`, `training`) of a chat model. It returns `(0, -1)` for an unregistered category before any tokenization. Otherwise it returns tokens × rate / 1,000,000 with code 0. A prompt text the tokenizer refuses raises.

Each operation's result is an `Outcome`: either `Returned(pair)` or `Raised`, where `Raised` stands for an exception that leaves the function uncaught. The model tracks when an exception is raised, but not its type or its message.

The two price tables are constants: `text-embedding-3-small` costs 0.02, and `gpt-3.5-turbo` costs 3, 6 and 8 per million tokens.

Modules:

- `Tokenization` (`tokenization.dfy`): the tokenizer as a value. It has three parts:
  - the set of model names it can encode;
  - which texts each encoding accepts;
  - a token-count function.
- `Corpus` (`corpus.dfy`): the files, the folder walk and the ".md" suffix test. It defines three recursive running values over the visited files:
  - the "found" flag (`AnyMarkdown`);
  - the raise condition (`AnyAborts`);
  - the token total (`ReadableTokens`).

  It also defines `NumTokens`, the outcome of corpus mode, and holds the lemmas about them.
- `EstimateCost` (`estimate_cost.dfy`): the rate tables and the four operations.
  - `GetNumTokens` is a method with the nested loops of `get_num_tokens` in estimate_cost.py, proved equal to `NumTokens`. Its inner loop over one directory is `VisitFiles`, and the body of that loop is `VisitFile`.
  - The three other operations are functions.

The estimates are functions of their inputs and the constant tables, so two calls with the same inputs return the same result.

## Model

| member | source | states |
|---|---|---|
| `EstimateCost.RateTables` | estimate_cost.py:5-15 | The embedding table prices exactly `text-embedding-3-small`, at 0.02. The prompt table prices exactly `gpt-3.5-turbo`, in exactly the categories `input`, `output` and `training`. Every rate is non-negative. |
| `Corpus.IsMarkdown` | estimate_cost.py:25 | The suffix test: the name ends in the three characters `.md`. |
| `Corpus.AnyMarkdown` | estimate_cost.py:22-26 | The "found" flag after visiting a run of files: false for no file, and set by the first file whose name ends in ".md". `AnyMarkdownMember` proves it equals "some visited name ends in .md". |
| `Corpus.ReadableTokens` | estimate_cost.py:21-31 | The running total: the sum, in visiting order, of the token counts of the ".md" files that could be read and decoded. |
| `Corpus.Files` | estimate_cost.py:23-24 | The files in the order the walk visits them: each directory's files in order, directory after directory. |
| `Corpus.Contribution` | estimate_cost.py:25-31 | What one file adds to the total: its token count when its name ends in ".md" and its content was read and decoded, otherwise 0. |
| `Corpus.Aborts` | estimate_cost.py:25-32 | A file raises out of the walk exactly when its name ends in ".md" and it does not decode or the tokenizer refuses its text. Other files are never opened. |
| `Corpus.AnyAborts` | estimate_cost.py:23-32 | The walk over a run of files raises exactly when some file of the run raises. A file that raises ends the walk, because the error is not caught. `AnyAbortsMember` proves the "some file" form. |
| `Corpus.UpperCaseExtensionIgnored` | estimate_cost.py:25 | The suffix test is case-sensitive: `README.MD` and `md` are not billed, `notes.md` is. |
| `EstimateCost.VisitFile` | estimate_cost.py:25-33 | One loop step. The step raises exactly when the file is a ".md" file that does not decode or whose text is refused. Otherwise it sets the flag iff the name ends in ".md", whether or not the read succeeds, and adds the file's tokens only when it is a readable ".md" file. |
| `EstimateCost.VisitFiles` | estimate_cost.py:24-33 | The inner loop over one directory, started from the flag and total of the files already visited. It raises exactly when the visited files so far, this directory's included, contain a file that raises. Otherwise the flag and total it returns are those of all those files. |
| `EstimateCost.GetNumTokens` | estimate_cost.py:18-38 | The nested walk returns exactly `NumTokens` of the visited files. It raises iff some ".md" file does not decode or is refused by the tokenizer. When it returns, the code is -1 iff no file name ends in ".md". The tokenizer must know the model even for an empty folder. |
| `Corpus.NumTokens` | estimate_cost.py:25-38 | The outcome is `Raised` exactly when some visited file raises. When it returns, the code is 0 or -1, it is -1 exactly when no ".md" file was seen, and a -1 result carries 0 tokens. |
| `Corpus.VisitOne` | estimate_cost.py:24-33 | Visiting one more file updates the flag, the raise condition and the total by that file alone. |
| `Corpus.AnyMarkdownMember` | estimate_cost.py:22-26 | The flag is set iff some visited file name ends in ".md", in both directions. |
| `Corpus.AnyAbortsMember` | estimate_cost.py:25-32 | The walk raises iff some visited ".md" file does not decode or is refused by the tokenizer, in both directions. |
| `Corpus.AbortsInPrefix` | estimate_cost.py:23-32 | A file that raises in one of the first directories makes the whole walk raise, whatever the later directories hold. |
| `Corpus.DecodeErrorRaises` | estimate_cost.py:28-32 | A ".md" file that does not decode makes the count raise, wherever it sits among the other files. |
| `Corpus.NoMarkdownNotFound` | estimate_cost.py:23-36 | For every walk with no ".md" file, the count returns `(0, -1)` and cannot raise, because no file is opened. |
| `Corpus.NoMarkdownNoTokens` | estimate_cost.py:21-31 | A run of files none of which ends in ".md" totals 0 tokens. |
| `Corpus.UnreadableMarkdownNoTokens` | estimate_cost.py:28-33 | ".md" files whose read fails with an operating-system error add no tokens. |
| `Corpus.UnreadableMarkdownStillFound` | estimate_cost.py:25-38 | If ".md" files exist but every one fails to read, the count is `(0, 0)`, not `(0, -1)`. The flag is set before the read is tried. |
| `Corpus.NonMarkdownIgnored` | estimate_cost.py:24-31 | Inserting a non-".md" file anywhere in the walk changes nothing, whatever its content, because it is never opened. |
| `Corpus.ReadableTokensAppend` | estimate_cost.py:21-31 | The total over two runs of files is the sum of their totals. |
| `Corpus.ReadableTokensPermutation` | estimate_cost.py:23-31 | The token total is the same for any order of visiting the same files. |
| `Corpus.NumTokensPermutation` | estimate_cost.py:21-38 | The whole outcome does not depend on walk order: the raise, the code and the total. |
| `EstimateCost.EstimateEmbeddingCost` | estimate_cost.py:41-48 | The estimate raises iff the count raises. When it returns, the code is -1 with cost 0 iff no ".md" file was found. Otherwise the result is `(tokens × EmbeddingRate[model] / 10^6, 0)`, and the cost is never negative. The model needs a rate only when the count returned with a ".md" file found. |
| `EstimateCost.EmbeddingCostFromCount` | estimate_cost.py:42-48 | Two walks with the same token-count outcome get the same embedding estimate. |
| `EstimateCost.EmbeddingCostOrderIndependent` | estimate_cost.py:41-48 | Two walks over the same files in different orders give the same estimate. |
| `EstimateCost.UnreadableCorpusIsFound` | estimate_cost.py:26-48 | A corpus whose ".md" files all fail to read is estimated at `(0.0, 0)`, not "not found". |
| `EstimateCost.NoMarkdownEmbeddingNotFound` | estimate_cost.py:41-45 | For every walk with no ".md" file, the embedding estimate is `(0.0, -1)`, even for a model with no embedding rate. |
| `EstimateCost.TwoFileCorpusCost` | estimate_cost.py:41-48 | Files of 100 and 150 tokens plus a `.txt` file, under `text-embedding-3-small`, cost exactly 0.000005 with code 0. |
| `EstimateCost.TwoFileTokens` | estimate_cost.py:21-38 | The count of that corpus is `(250, 0)`, whatever the `.txt` file holds. |
| `EstimateCost.UndecodableCorpusRaises` | estimate_cost.py:28-32 | A folder with an undecodable `a.md` beside a readable `b.md` makes the embedding estimate raise. |
| `EstimateCost.NoMarkdownCorpusNotFound` | estimate_cost.py:35-45 | A folder holding only `notes.txt` and `README.MD` is "not found", `(0.0, -1)`. This holds even when neither decodes, and even for a model with no embedding rate. |
| `EstimateCost.GetNumTokensForPrompt` | estimate_cost.py:51-54 | The prompt count raises iff the tokenizer refuses the text. Otherwise it returns code 0. |
| `EstimateCost.EstimatePromptCost` | estimate_cost.py:57-66 | The estimate raises iff the category is registered and the tokenizer refuses the text. When it returns, the code is -1 with cost 0 iff the category is not registered. Otherwise the result is `(tokens × PromptRate[model][category] / 10^6, 0)`, so the second -1 branch (lines 62-63) is never taken. The cost is never negative. |
| `EstimateCost.PromptNotFoundSkipsTokenizer` | estimate_cost.py:57-59 | For an unregistered category the result is `(0.0, -1)` whatever the tokenizer is, even one that knows no model. |
| `EstimateCost.MillionPromptTokensCostTheRate` | estimate_cost.py:61-66 | One million tokens of a registered category cost exactly that category's rate. |
| `EstimateCost.ChatRateInstances` | estimate_cost.py:9-15 | For `gpt-3.5-turbo`, 10^6 tokens cost 3 as `input`, 6 as `output` and 8 as `training`. `summarization` is "not found". |

## Left out

- Tokenization itself, i.e. the encoding lookup by model name and the encoding of a text. This is a foreign library. It is a value of type `Tokenizer`, with three parts:
  - the model names it knows;
  - which texts it accepts;
  - a token-count function.
  - Asking for an unknown model raises in the Python code. Here a known model is a precondition rather than a `Raised` outcome. Corpus mode looks up the tokenizer before the walk, so there the precondition always applies. Prompt mode looks it up only after the category check, so there it applies only to registered categories.
- Filesystem access, i.e. walking directories, joining paths and reading files. This is I/O. The walk is an input sequence of directories, each with its files in visiting order. A file's content has three cases:
  - its text;
  - `ReadError`, when opening or reading fails with an operating-system error;
  - `DecodeError`, when its bytes are not valid UTF-8.
  - A folder that does not exist is an empty walk.
- The type and message of a raised exception. An uncaught error is the single outcome `Raised`.
- The messages printed for a failed read and for the token count. They are console output only.
- The command-line entry point with its argument parsing and three-decimal currency formatting. These are presentation only.
- Floating-point rounding. Costs are exact `real` values of tokens × rate / 1,000,000, not IEEE-754 doubles. The integer-valued prompt rates are written as reals.
- The unregistered model in prompt mode. Unlike the category, the model is not checked before the table is indexed (estimate_cost.py:58), so an unknown chat model raises a key error. `model in PromptRate` is therefore a precondition of `EstimatePromptCost`.
- The unregistered embedding model in corpus mode. The rate lookup (estimate_cost.py:47) is not guarded either. It is a precondition only when the count returned with a ".md" file found, because the "not found" return and any raise from the walk come before the lookup.
- The ingestion and query scripts (`create_database.py`, `query_data.py`). They orchestrate a document loader, a text splitter, an embedding service, a vector store and a chat service. Those are external libraries with no logic of their own worth modelling.
