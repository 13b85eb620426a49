/** The tokenizer the estimator consults.

    The real tokenizer is a foreign library: it maps a model name to an
    encoding (failing for a name it does not know) and the encoding maps a
    text to a list of tokens, raising an error for a text that contains a
    special token it does not allow. Only the LENGTH of that list is ever
    used, so the model keeps the three facts the estimator depends on: which
    model names have an encoding, which texts an encoding accepts, and how
    many tokens a text has under a model.
 */
module Tokenization {

  datatype Tokenizer = Tokenizer(
    models: set<string>,
    accepts: (string, string) -> bool,
    count: (string, string) -> nat)
  {
    /** True when looking up the encoding for `model` succeeds. */
    predicate Knows(model: string) {
      model in models
    }

    /** True when encoding `text` under `model` succeeds rather than raising. */
    predicate Accepts(model: string, text: string) {
      accepts(model, text)
    }

    /** Number of tokens of `text` under the encoding of `model`. */
    function Count(model: string, text: string): nat
      requires Knows(model)
    {
      count(model, text)
    }
  }
}
