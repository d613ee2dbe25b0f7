/**
 * The Markdown event stream produced by the pulldown_cmark tokenizer, reduced
 * to the shapes the code-block rewriter distinguishes. Every other event kind
 * (emphasis, links, rules, ...) is carried by `OtherEvent` and only ever
 * passes through.
 */
module Events {
  /** A copy-on-write string: `Borrowed` when it is a slice of the chapter text,
      `Boxed`/`Inlined` when the tokenizer had to build it (escapes, entities). */
  datatype CowStr = Borrowed(s: string) | Boxed(s: string) | Inlined(s: string)

  datatype CodeBlockKind = Indented | Fenced(info: CowStr)

  datatype Tag = Paragraph | CodeBlock(kind: CodeBlockKind) | OtherTag(name: string)

  datatype Event =
    | Start(tag: Tag)
    | End(tag: Tag)
    | Text(text: CowStr)
    | Html(html: CowStr)
    | OtherEvent(kind: string)

  /** The info string that marks a diagram block. */
  const BobMarker: string := "bob"

  /** The tag of a fenced block whose info string is exactly `bob`, unescaped. */
  const BobFence: Tag := CodeBlock(Fenced(Borrowed(BobMarker)))

  predicate IsBobStart(e: Event) {
    e == Start(BobFence)
  }

  /** No event of `events` opens a `bob` block. */
  predicate NoBobStart(events: seq<Event>) {
    forall i :: 0 <= i < |events| ==> !IsBobStart(events[i])
  }
}
