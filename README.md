# mdbook-svgbob preprocessor, modelled in Dafny

This project models the core of the `svgbob` preprocessor for mdbook
(`src/preprocessor.rs`). The preprocessor receives a book from mdbook. It
tokenizes each chapter into Markdown events and replaces every fenced code
block tagged exactly `bob` with a paragraph holding the SVG that svgbob
renders from the block's text. Then it serializes the events back into the
chapter's Markdown.

- `Events` (events.dfy): the shapes of pulldown_cmark events that the rewriter tells apart.
- `Rewriter` (rewriter.dfy): the three-state transducer of `process_code_blocks`.
  `Step` is the match applied to one event. `RewriteFrom` is the specification of the
  whole pass, and `RewriteEvents` is the loop, proved against it.
- `BookWalk` (bookwalk.dfy): the walk of `run` over the tree of book items,
  with per-chapter failure isolation.
- `Semver` (semver.dfy): the tilde requirement `~X.Y.Z`.
- `Preprocessor` (preprocessor.dfy): `supports_renderer`, `run` and the
  version check of `handle_preprocessing`.
- `Collaborators` (collaborators.dfy): the library code the core calls, as
  function-valued parameters. These are the Markdown tokenizer, the Markdown
  serializer (which may fail), the svgbob renderer (total), the
  configuration conversion, the default settings and version parsing.
  Every property holds for any such functions.

The rewriter's state names are `Idle`, `Open` and `Closing`. `Idle` is the
source's `State::None`.

Two behaviours of the code are worth knowing:
- On an event the rewriter does not expect, the code emits the event
  unchanged and keeps its state (`_ => Some(e)`). It does not fall back to
  `Idle`. So a `bob` fence with no text inside leaves the machine `Open`, and
  the chapter's next borrowed text is rendered as a diagram
  (`Rewriter.EmptyFenceStaysOpen`).
- The renderer has no failure path: its output is used directly as a string.
  The only per-chapter error is the serializer's `std::fmt::Error`.

## Model

| member | source | states |
|---|---|---|
| `Rewriter.Step` | src/preprocessor.rs:95-111 | An event is rewritten exactly when the state changes. The renderer is called exactly on borrowed text inside an open block, and its output replaces that text as an `Html` event. The machine enters `Open` if and only if it is `Idle` and meets the `bob` start fence, which becomes `Start(Paragraph)`. It returns to `Idle` if and only if it is `Closing` and meets the `bob` end fence, which becomes `End(Paragraph)`. It enters `Closing` only by rendering. |
| `Rewriter.RewriteFrom` | src/preprocessor.rs:85-113 | The rewritten stream has exactly as many events as the input. The renderer is called at most once per event. |
| `Rewriter.RewriteEvents` | src/preprocessor.rs:85-113 | The per-event loop with its mutable state produces exactly the transducer's output and renderer calls. |
| `Rewriter.ProcessCodeBlocks` | src/preprocessor.rs:72-115 | The result is the serialization of the rewritten events of the tokenized chapter, including the serializer's error. |
| `Rewriter.RewritePrefix` | src/preprocessor.rs:87-113 | Rewriting a prefix of the stream gives the same prefix of the rewrite. Later events never change earlier output. |
| `Rewriter.RewriteAt` | src/preprocessor.rs:95-111 | Output event i depends only on input event i and the state reached after the first i events. |
| `Rewriter.RewriteAppend` | src/preprocessor.rs:85-113 | Rewriting a concatenation is rewriting the first part, then the second part from the state the first part ends in. |
| `Rewriter.WellFormedBlock` | src/preprocessor.rs:96-109 | A chapter that is exactly one `bob` block `Start, Text, End` rewrites to `Start(Paragraph), Html(svg), End(Paragraph)`. The text is rendered once and the state ends `Idle`. |
| `Rewriter.NoBobStartIsIdentity` | src/preprocessor.rs:95-111 | Without a `bob` start fence, every event passes through unchanged, the state stays `Idle` and the renderer is never called. |
| `Rewriter.SingleBlock` | src/preprocessor.rs:96-109 | A well-formed `bob` block `Start, Text, End` becomes `Start(Paragraph), Html(svg), End(Paragraph)`. The text is rendered exactly once, the events around the block are kept and the state ends `Idle`. |
| `Rewriter.EmptyFenceStaysOpen` | src/preprocessor.rs:96-110 | A `bob` fence with no text leaves the machine `Open`. Its end fence passes through unchanged, and a later borrowed text is rendered. |
| `Rewriter.NoBobChapterUnchanged` | src/preprocessor.rs:87-114 | A chapter with no `bob` fence is serialized from its unmodified event stream. |
| `BookWalk.Committed` | src/preprocessor.rs:57-64 | A chapter's new content is the processed text on success and its old content on error. |
| `BookWalk.Walked` | src/preprocessor.rs:55-66 | The walk keeps the number of items at each level. |
| `BookWalk.Walk` | src/preprocessor.rs:55-66 | Visiting every item recursively, processing chapters and committing only successes, yields the walked book. |
| `BookWalk.CommitAll` | src/preprocessor.rs:57-64 | Each chapter content is committed independently of the others. |
| `BookWalk.WalkKeepsSkeleton` | src/preprocessor.rs:55-66 | The walk adds, removes, reorders and renames nothing. Separators, part titles, nesting and chapter names are unchanged. |
| `BookWalk.WalkCommitsContents` | src/preprocessor.rs:55-66 | The chapter contents after the walk, in document order, are the committed values of the contents before it. |
| `BookWalk.ChapterOutcomes` | src/preprocessor.rs:55-66 | The k-th chapter gets exactly the returned text on success and keeps its content on error. The chapter count is unchanged. |
| `Preprocessor.SupportsRenderer` | src/preprocessor.rs:44-46 | A renderer is declined if and only if its name is `not-supported`. |
| `Preprocessor.Run` | src/preprocessor.rs:48-68 | `run` always returns `Ok` with the walked book. The book's skeleton is preserved and every chapter's content is committed. |
| `Semver.TildeMatches` | src/preprocessor.rs:23 | `~X.Y.Z` accepts exactly the versions at least `X.Y.Z` and below `X.(Y+1).0`. |
| `Semver.TildeNeedsSameMinor` | src/preprocessor.rs:23 | A version satisfies its own tilde requirement. A version with another major or minor number never does. |
| `Preprocessor.CheckVersions` | src/preprocessor.rs:22-25 | A parse error of either version aborts. Otherwise a warning is due if and only if the version strings differ and the caller's version is outside `~built`. |
| `Preprocessor.SameVersionNoWarning` | src/preprocessor.rs:22-25 | Identical version strings never draw a warning. |
| `Preprocessor.MinorMismatchWarns` | src/preprocessor.rs:22-25 | A caller with another major or minor version is always warned about. |
| `Preprocessor.TildeCompatibleNoWarning` | src/preprocessor.rs:22-25 | A caller with the same major and minor and at least the built patch is never warned about. |
| `Preprocessor.HandlePreprocessing` | src/preprocessor.rs:17-37 | A version parse error aborts the request with no output and no warning. Otherwise the warning follows the version check and the result is the walked book. |

## Left out

- Reading the request from standard input and writing the book as JSON to standard output (`CmdPreprocessor::parse_input`, `serde_json::to_writer`): I/O. `HandlePreprocessing` takes the parsed context and book and returns the book.
- Markdown tokenizing and serializing (pulldown_cmark, pulldown_cmark_to_cmark): foreign libraries, taken as arbitrary functions. Event kinds that the rewriter never distinguishes are collapsed into `OtherEvent`.
- `bob_handler`, `cfg_to_settings` and `Settings::default` from `crate::svgbob`: src/svgbob.rs is not part of this model, so they are arbitrary functions too. The SVG contents checked by the unit test at src/preprocessor.rs:131-133 depend on the renderer and are not modelled.
- Semver parsing is an arbitrary function that may fail. Pre-release and build metadata are not modelled. Versions are `(major, minor, patch)` triples.
- Logging (`warn!`, `trace!`, `error!`): side effects only. The warning is modelled as the `warned` result of `HandlePreprocessing`. The per-chapter trace and error messages are not modelled.
- `run` mutates the book in place through mdbook's `for_each_mut`, which visits an item's sub-items before the item. The model rebuilds the book as a value. A chapter's result depends only on its own content, so the visiting order does not change the result.
- Chapter metadata other than the name (number, paths, parent names) is neither read nor written by the core, so it is not modelled.
- `Bob::new` and `name()` are trivial: the name is the constant `Preprocessor.Name`.
- `Rewriter.RewriteEvents`: the renderer's calls are returned as a ghost sequence, because the renderer is a pure function here.
