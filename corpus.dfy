/** The corpus that the embedding estimate walks: directories of files, of
    which only those whose name ends in ".md" are billed.

    A file is an `Entry`: its name and what reading it yields. A folder walk is
    a sequence of `Directory` steps, one per directory visited, each with the
    files of that directory in the order they are visited.
 */
module Corpus {
  import opened Tokenization

  /** What reading a file yields: its text, an operating-system error (which
      the walk catches and skips), or bytes that are not valid UTF-8 (which
      raise a decoding error that nothing catches). */
  datatype Content = Text(text: string) | ReadError | DecodeError

  datatype Entry = Entry(name: string, content: Content)

  datatype Directory = Directory(root: string, files: seq<Entry>)

  /** A call either returns a value or raises an error that its caller does
      not catch. */
  datatype Outcome<T> = Returned(value: T) | Raised

  /** Case-sensitive suffix test, as string `endswith`. */
  predicate EndsWith(s: string, suffix: string) {
    |suffix| <= |s| && s[|s| - |suffix|..] == suffix
  }

  /** The only files that are opened and billed. */
  predicate IsMarkdown(name: string) {
    EndsWith(name, ".md")
  }

  /** Every file of the walk, in visiting order. */
  function Files(walk: seq<Directory>): seq<Entry>
  {
    if walk == [] then [] else Files(walk[..|walk| - 1]) + walk[|walk| - 1].files
  }

  /** The "files found" flag after visiting `files` in order. */
  predicate AnyMarkdown(files: seq<Entry>) {
    files != [] && (AnyMarkdown(files[..|files| - 1]) || IsMarkdown(files[|files| - 1].name))
  }

  /** Visiting this file raises out of the walk: a Markdown file whose bytes
      do not decode, or whose text the tokenizer refuses to encode. */
  predicate Aborts(e: Entry, model: string, tk: Tokenizer) {
    IsMarkdown(e.name) &&
    (e.content.DecodeError? || (e.content.Text? && !tk.Accepts(model, e.content.text)))
  }

  /** Visiting `files` in order raises at some file. */
  predicate AnyAborts(files: seq<Entry>, model: string, tk: Tokenizer) {
    files != [] && (AnyAborts(files[..|files| - 1], model, tk) || Aborts(files[|files| - 1], model, tk))
  }

  /** Tokens one file adds to the total: those of a readable Markdown file,
      nothing for any other file. */
  function Contribution(e: Entry, model: string, tk: Tokenizer): nat
    requires tk.Knows(model)
  {
    if IsMarkdown(e.name) && e.content.Text? then tk.Count(model, e.content.text) else 0
  }

  /** Running token total after visiting `files` in order. */
  function ReadableTokens(files: seq<Entry>, model: string, tk: Tokenizer): nat
    requires tk.Knows(model)
  {
    if files == [] then 0
    else ReadableTokens(files[..|files| - 1], model, tk) + Contribution(files[|files| - 1], model, tk)
  }

  /** What the corpus token count does: raise when some Markdown file cannot
      be decoded or encoded; otherwise return (0, -1) when no Markdown file
      was seen and (total, 0) when one was. */
  function NumTokens(files: seq<Entry>, model: string, tk: Tokenizer): (r: Outcome<(nat, int)>)
    requires tk.Knows(model)
    ensures r.Raised? <==> AnyAborts(files, model, tk)
    ensures r.Returned? ==> r.value.1 == 0 || r.value.1 == -1
    ensures r.Returned? ==> (r.value.1 == -1 <==> !AnyMarkdown(files))
    ensures r.Returned? && r.value.1 == -1 ==> r.value.0 == 0
  {
    if AnyAborts(files, model, tk) then Raised
    else if !AnyMarkdown(files) then Returned((0, -1))
    else Returned((ReadableTokens(files, model, tk), 0))
  }

  /** A walk with no Markdown file cannot raise, since no file is opened,
      and is "not found". */
  lemma NoMarkdownNotFound(files: seq<Entry>, model: string, tk: Tokenizer)
    requires tk.Knows(model)
    requires !AnyMarkdown(files)
    ensures NumTokens(files, model, tk) == Returned((0, -1))
  {
    AnyMarkdownMember(files);
    AnyAbortsMember(files, model, tk);
  }

  /** Visiting one more file: the flags and the total are updated by that file alone. */
  lemma VisitOne(s: seq<Entry>, e: Entry, model: string, tk: Tokenizer)
    requires tk.Knows(model)
    ensures AnyMarkdown(s + [e]) == (AnyMarkdown(s) || IsMarkdown(e.name))
    ensures AnyAborts(s + [e], model, tk) == (AnyAborts(s, model, tk) || Aborts(e, model, tk))
    ensures ReadableTokens(s + [e], model, tk) == ReadableTokens(s, model, tk) + Contribution(e, model, tk)
  {
    assert (s + [e])[..|s|] == s;
  }

  /** Visiting two files: the flags and the total are those two files' own. */
  lemma VisitTwo(e0: Entry, e1: Entry, model: string, tk: Tokenizer)
    requires tk.Knows(model)
    ensures AnyMarkdown([e0, e1]) == (IsMarkdown(e0.name) || IsMarkdown(e1.name))
    ensures AnyAborts([e0, e1], model, tk) == (Aborts(e0, model, tk) || Aborts(e1, model, tk))
    ensures ReadableTokens([e0, e1], model, tk) == Contribution(e0, model, tk) + Contribution(e1, model, tk)
  {
    VisitOne([], e0, model, tk);
    VisitOne([e0], e1, model, tk);
    assert [] + [e0] == [e0] && [e0] + [e1] == [e0, e1];
  }

  /** A walk of one directory visits exactly that directory's files. */
  lemma SingleDirectory(d: Directory)
    ensures Files([d]) == d.files
  {
    assert [d][..0] == [];
  }

  /** The flag is set exactly when some file of the walk is a Markdown file. */
  lemma {:induction false} AnyMarkdownMember(files: seq<Entry>)
    ensures AnyMarkdown(files) <==> exists e | e in files :: IsMarkdown(e.name)
  {
    if files != [] {
      var init := files[..|files| - 1];
      assert files == init + [files[|files| - 1]];
      AnyMarkdownMember(init);
    }
  }

  /** The walk raises exactly when some file of it raises. */
  lemma {:induction false} AnyAbortsMember(files: seq<Entry>, model: string, tk: Tokenizer)
    ensures AnyAborts(files, model, tk) <==> exists e | e in files :: Aborts(e, model, tk)
  {
    if files != [] {
      var init := files[..|files| - 1];
      assert files == init + [files[|files| - 1]];
      AnyAbortsMember(init, model, tk);
    }
  }

  /** The files of one more directory follow those already walked. */
  lemma WalkOne(walk: seq<Directory>, i: nat)
    requires i < |walk|
    ensures Files(walk[..i + 1]) == Files(walk[..i]) + walk[i].files
  {
    assert walk[..i + 1][..i] == walk[..i];
  }

  /** One more file of a directory extends the visited prefix by that file. */
  lemma PrefixStep(seen: seq<Entry>, files: seq<Entry>, j: nat)
    requires j < |files|
    ensures seen + files[..j + 1] == (seen + files[..j]) + [files[j]]
  {
    assert files[..j + 1] == files[..j] + [files[j]];
  }

  /** A file that raises makes every longer run raise from that file on. */
  lemma AbortsInRest(seen: seq<Entry>, files: seq<Entry>, j: nat, model: string, tk: Tokenizer)
    requires j < |files| && Aborts(files[j], model, tk)
    ensures AnyAborts(seen + files, model, tk)
  {
    AnyAbortsMember(seen + files, model, tk);
    assert (seen + files)[|seen| + j] == files[j];
  }

  /** A walk whose first `k` directories raise raises as a whole. */
  lemma AbortsInPrefix(walk: seq<Directory>, k: nat, model: string, tk: Tokenizer)
    requires tk.Knows(model)
    requires k <= |walk| && AnyAborts(Files(walk[..k]), model, tk)
    ensures NumTokens(Files(walk), model, tk) == Raised
  {
    FilesPrefix(walk, k);
    AnyAbortsMember(Files(walk[..k]), model, tk);
    AnyAbortsMember(Files(walk), model, tk);
  }

  /** The files of the first `k` directories come first in the walk. */
  lemma {:induction false} FilesPrefix(walk: seq<Directory>, k: nat)
    requires k <= |walk|
    ensures Files(walk[..k]) <= Files(walk)
    decreases |walk| - k
  {
    if k == |walk| {
      assert walk[..k] == walk;
    } else {
      WalkOne(walk, k);
      FilesPrefix(walk, k + 1);
    }
  }

  // ---------------------------------------------------------------------
  // Properties of the token total

  /** The total over two runs of files is the sum of their totals. */
  lemma {:induction false} ReadableTokensAppend(s: seq<Entry>, t: seq<Entry>, model: string, tk: Tokenizer)
    requires tk.Knows(model)
    ensures ReadableTokens(s + t, model, tk) == ReadableTokens(s, model, tk) + ReadableTokens(t, model, tk)
    decreases |t|
  {
    if t == [] {
      assert s + t == s;
    } else {
      var t' := t[..|t| - 1];
      assert (s + t)[..|s + t| - 1] == s + t';
      ReadableTokensAppend(s, t', model, tk);
    }
  }

  /** A run with no Markdown file adds no tokens. */
  lemma {:induction false} NoMarkdownNoTokens(files: seq<Entry>, model: string, tk: Tokenizer)
    requires tk.Knows(model)
    requires !AnyMarkdown(files)
    ensures ReadableTokens(files, model, tk) == 0
  {
    if files != [] {
      var init := files[..|files| - 1];
      assert files == init + [files[|files| - 1]];
      NoMarkdownNoTokens(init, model, tk);
    }
  }

  /** A run whose Markdown files all fail to read adds no tokens. */
  lemma {:induction false} UnreadableMarkdownNoTokens(files: seq<Entry>, model: string, tk: Tokenizer)
    requires tk.Knows(model)
    requires forall e | e in files && IsMarkdown(e.name) :: e.content.ReadError?
    ensures ReadableTokens(files, model, tk) == 0
  {
    if files != [] {
      var init := files[..|files| - 1];
      assert files == init + [files[|files| - 1]];
      UnreadableMarkdownNoTokens(init, model, tk);
    }
  }

  /** Markdown files were found but none could be read: the count returns
      (0, 0), which is success with zero tokens, not "not found". */
  lemma UnreadableMarkdownStillFound(files: seq<Entry>, model: string, tk: Tokenizer)
    requires tk.Knows(model)
    requires AnyMarkdown(files)
    requires forall e | e in files && IsMarkdown(e.name) :: e.content.ReadError?
    ensures NumTokens(files, model, tk) == Returned((0, 0))
  {
    UnreadableMarkdownNoTokens(files, model, tk);
    AnyAbortsMember(files, model, tk);
  }

  /** A Markdown file that does not decode makes the whole count raise,
      whatever the other files hold and wherever it is visited. */
  lemma DecodeErrorRaises(s: seq<Entry>, e: Entry, t: seq<Entry>, model: string, tk: Tokenizer)
    requires tk.Knows(model)
    requires IsMarkdown(e.name) && e.content.DecodeError?
    ensures NumTokens(s + [e] + t, model, tk) == Raised
  {
    assert e in s + [e] + t;
    AnyAbortsMember(s + [e] + t, model, tk);
  }

  /** Inserting a file that is not Markdown anywhere in the walk changes
      nothing, whatever its content: it is never opened. */
  lemma NonMarkdownIgnored(s: seq<Entry>, e: Entry, t: seq<Entry>, model: string, tk: Tokenizer)
    requires tk.Knows(model)
    requires !IsMarkdown(e.name)
    ensures NumTokens(s + [e] + t, model, tk) == NumTokens(s + t, model, tk)
  {
    var u, v := s + [e] + t, s + t;
    assert ReadableTokens(u, model, tk) == ReadableTokens(v, model, tk) by {
      ReadableTokensAppend(s + [e], t, model, tk);
      ReadableTokensAppend(s, [e], model, tk);
      ReadableTokensAppend(s, t, model, tk);
      assert [e][..0] == [];
    }
    assert forall x :: x in u <==> x in v || x == e;
    AnyMarkdownMember(u);
    AnyMarkdownMember(v);
    AnyAbortsMember(u, model, tk);
    AnyAbortsMember(v, model, tk);
  }

  /** Removing the element at position `j` takes its contribution off the total. */
  lemma RemoveAt(t: seq<Entry>, j: nat, model: string, tk: Tokenizer)
    requires tk.Knows(model)
    requires j < |t|
    ensures ReadableTokens(t, model, tk)
         == ReadableTokens(t[..j] + t[j + 1..], model, tk) + Contribution(t[j], model, tk)
  {
    assert t == t[..j] + [t[j]] + t[j + 1..];
    ReadableTokensAppend(t[..j] + [t[j]], t[j + 1..], model, tk);
    ReadableTokensAppend(t[..j], [t[j]], model, tk);
    ReadableTokensAppend(t[..j], t[j + 1..], model, tk);
    assert [t[j]][..0] == [];
  }

  /** Taking the last file of `s` and an equal file of `t` off two
      permutations of each other leaves two permutations of each other. */
  lemma MultisetRemoveLast(s: seq<Entry>, t: seq<Entry>, j: nat)
    requires multiset(s) == multiset(t) && s != []
    requires j < |t| && t[j] == s[|s| - 1]
    ensures multiset(s[..|s| - 1]) == multiset(t[..j] + t[j + 1..])
  {
    var x := s[|s| - 1];
    assert s == s[..|s| - 1] + [x];
    assert t == t[..j] + [x] + t[j + 1..];
    assert multiset(t[..j] + t[j + 1..]) == multiset(t[..j]) + multiset(t[j + 1..]);
    assert multiset(t) == multiset(t[..j]) + multiset{x} + multiset(t[j + 1..]);
    assert multiset(s) == multiset(s[..|s| - 1]) + multiset{x};
    assert multiset(s[..|s| - 1]) == multiset(s) - multiset{x};
    assert multiset(t[..j] + t[j + 1..]) == multiset(t) - multiset{x};
  }

  /** The total does not depend on the order in which files are visited. */
  lemma {:induction false} ReadableTokensPermutation(s: seq<Entry>, t: seq<Entry>, model: string, tk: Tokenizer)
    requires tk.Knows(model)
    requires multiset(s) == multiset(t)
    ensures ReadableTokens(s, model, tk) == ReadableTokens(t, model, tk)
    decreases |s|
  {
    if s != [] {
      var x := s[|s| - 1];
      assert x in multiset(t);
      var j :| 0 <= j < |t| && t[j] == x;
      MultisetRemoveLast(s, t, j);
      var s', t' := s[..|s| - 1], t[..j] + t[j + 1..];
      assert s == s' + [x];
      ReadableTokensAppend(s', [x], model, tk);
      assert [x][..0] == [];
      ReadableTokensPermutation(s', t', model, tk);
      RemoveAt(t, j, model, tk);
    } else {
      assert |t| == |multiset(t)| == 0;
    }
  }

  /** The corpus count, result code included, does not depend on walk order. */
  lemma NumTokensPermutation(s: seq<Entry>, t: seq<Entry>, model: string, tk: Tokenizer)
    requires tk.Knows(model)
    requires multiset(s) == multiset(t)
    ensures NumTokens(s, model, tk) == NumTokens(t, model, tk)
  {
    ReadableTokensPermutation(s, t, model, tk);
    assert forall x :: x in s <==> x in multiset(s);
    assert forall x :: x in t <==> x in multiset(t);
    AnyMarkdownMember(s);
    AnyMarkdownMember(t);
    AnyAbortsMember(s, model, tk);
    AnyAbortsMember(t, model, tk);
  }

  /** The suffix test is case-sensitive: an upper-case extension is not billed. */
  lemma UpperCaseExtensionIgnored()
    ensures IsMarkdown("notes.md")
    ensures !IsMarkdown("README.MD")
    ensures !IsMarkdown("md")
  {
    assert "README.MD"[6..] == ".MD";
  }
}
