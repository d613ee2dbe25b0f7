/**
 * `process_code_blocks`: the three-state transducer that turns every fenced
 * `bob` block of a chapter into a paragraph holding rendered SVG, then
 * serializes the rewritten event stream.
 */
module Rewriter {
  import opened Wrappers
  import opened Events
  import opened Collaborators

  /** `Idle` is the source's `State::None`: no `bob` block is open. */
  datatype State = Idle | Open | Closing

  /** One step of the transducer: the event emitted, the next state and the
      text handed to the renderer, if it was called. */
  datatype Transition = Transition(out: Event, next: State, rendered: Option<string>)

  /** The per-event match: three rewriting arms, everything else unchanged. */
  function Step(e: Event, st: State, settings: Settings, render: (string, Settings) -> string): (r: Transition)
    // an event is rewritten exactly when the state moves
    ensures r.out == e <==> r.next == st
    // the renderer is called only on borrowed text inside an open block,
    // and its output is what replaces that text
    ensures r.rendered.Some? <==> (st == Open && e.Text? && e.text.Borrowed?)
    ensures r.rendered.Some? ==>
      e == Text(Borrowed(r.rendered.value)) && r.out == Html(Boxed(render(r.rendered.value, settings)))
    // the opening and closing fences become paragraph boundaries, and
    // they are the only ways into `Open` and back to `Idle`
    ensures (r.next == Open && st != Open) <==> (st == Idle && e == Start(BobFence))
    ensures r.next == Open && st != Open ==> r.out == Start(Paragraph)
    ensures (r.next == Idle && st != Idle) <==> (st == Closing && e == End(BobFence))
    ensures r.next == Idle && st != Idle ==> r.out == End(Paragraph)
    // `Closing` is reached only by rendering
    ensures r.next == Closing && st != Closing ==> r.rendered.Some?
  {
    if st == Idle && e == Start(BobFence) then
      Transition(Start(Paragraph), Open, None)
    else if st == Open && e.Text? && e.text.Borrowed? then
      Transition(Html(Boxed(render(e.text.s, settings))), Closing, Some(e.text.s))
    else if st == Closing && e == End(BobFence) then
      Transition(End(Paragraph), Idle, None)
    else
      Transition(e, st, None)
  }

  /** The rewritten events, the state after the last one, and the texts handed
      to the renderer, in order. */
  datatype Rewritten = Rewritten(events: seq<Event>, state: State, rendered: seq<string>)

  /** The texts a step handed to the renderer: none, or the one it rendered. */
  function Calls(t: Transition): (c: seq<string>)
    ensures |c| <= 1
  {
    if t.rendered.Some? then [t.rendered.value] else []
  }

  /** One more event after the events rewritten so far. */
  function Extend(prev: Rewritten, e: Event, settings: Settings, render: (string, Settings) -> string): Rewritten {
    var t := Step(e, prev.state, settings, render);
    Rewritten(prev.events + [t.out], t.next, prev.rendered + Calls(t))
  }

  /** Runs the transducer over `events` from state `start`. */
  function RewriteFrom(events: seq<Event>, start: State, settings: Settings,
                       render: (string, Settings) -> string): (r: Rewritten)
    ensures |r.events| == |events|
    ensures |r.rendered| <= |events|
    decreases |events|
  {
    if events == [] then Rewritten([], start, [])
    else Extend(RewriteFrom(events[..|events| - 1], start, settings, render), events[|events| - 1], settings, render)
  }

  /** The loop of `process_code_blocks`: one output event per input event,
      with the state carried from each event to the next. */
  method RewriteEvents(events: seq<Event>, settings: Settings, render: (string, Settings) -> string)
    returns (out: seq<Event>, ghost rendered: seq<string>)
    ensures out == RewriteFrom(events, Idle, settings, render).events
    ensures rendered == RewriteFrom(events, Idle, settings, render).rendered
  {
    var state := Idle;
    out, rendered := [], [];
    var i := 0;
    while i < |events|
      invariant 0 <= i <= |events|
      invariant RewriteFrom(events[..i], Idle, settings, render) == Rewritten(out, state, rendered)
    {
      var e := events[i];
      if state == Idle && e == Start(BobFence) {
        state := Open;
        out := out + [Start(Paragraph)];
      } else if state == Open && e.Text? && e.text.Borrowed? {
        state := Closing;
        out := out + [Html(Boxed(render(e.text.s, settings)))];
        rendered := rendered + [e.text.s];
      } else if state == Closing && e == End(BobFence) {
        state := Idle;
        out := out + [End(Paragraph)];
      } else {
        out := out + [e];
      }
      assert events[..i + 1][..i] == events[..i];
      i := i + 1;
    }
    assert events[..i] == events;
  }

  /** What `process_code_blocks` returns for a chapter with this content. */
  function ChapterOutput(content: string, settings: Settings, lib: Libraries): Result<string, FmtError> {
    lib.cmark(RewriteFrom(lib.parse(content), Idle, settings, lib.bobHandler).events)
  }

  /** Tokenize, rewrite, serialize. */
  method ProcessCodeBlocks(content: string, settings: Settings, lib: Libraries)
    returns (r: Result<string, FmtError>)
    ensures r == ChapterOutput(content, settings, lib)
  {
    var events := lib.parse(content);
    var out, _ := RewriteEvents(events, settings, lib.bobHandler);
    r := lib.cmark(out);
  }

  // ---------------------------------------------------------------------
  // Properties of the transducer

  /** Rewriting a prefix gives the prefix of the rewrite. */
  lemma {:induction false} RewritePrefix(events: seq<Event>, start: State, settings: Settings,
                                         render: (string, Settings) -> string, k: nat)
    requires k <= |events|
    ensures RewriteFrom(events, start, settings, render).events[..k]
         == RewriteFrom(events[..k], start, settings, render).events
    decreases |events|
  {
    if k < |events| {
      var init := events[..|events| - 1];
      RewritePrefix(init, start, settings, render, k);
      assert init[..k] == events[..k];
      var whole := RewriteFrom(events, start, settings, render).events;
      var front := RewriteFrom(init, start, settings, render).events;
      assert whole[..k] == front[..k];
    } else {
      assert events[..k] == events;
    }
  }

  /** Output event i is the step taken on input event i from the state the
      first i events lead to: order is preserved and nothing is merged or
      dropped. */
  lemma RewriteAt(events: seq<Event>, start: State, settings: Settings,
                  render: (string, Settings) -> string, i: nat)
    requires i < |events|
    ensures RewriteFrom(events, start, settings, render).events[i]
         == Step(events[i], RewriteFrom(events[..i], start, settings, render).state, settings, render).out
  {
    RewritePrefix(events, start, settings, render, i + 1);
    assert events[..i + 1][..i] == events[..i];
    var whole := RewriteFrom(events, start, settings, render).events;
    assert whole[i] == whole[..i + 1][i];
  }

  /** Rewriting a concatenation is rewriting the first part, then the second
      from the state the first part ends in. */
  lemma {:induction false} RewriteAppend(a: seq<Event>, b: seq<Event>, start: State, settings: Settings,
                                         render: (string, Settings) -> string)
    ensures
      var ra := RewriteFrom(a, start, settings, render);
      var rb := RewriteFrom(b, ra.state, settings, render);
      RewriteFrom(a + b, start, settings, render)
        == Rewritten(ra.events + rb.events, rb.state, ra.rendered + rb.rendered)
    decreases |b|
  {
    if b == [] {
      assert a + b == a;
    } else {
      var init, last := b[..|b| - 1], b[|b| - 1];
      var ra := RewriteFrom(a, start, settings, render);
      var ri := RewriteFrom(init, ra.state, settings, render);
      assert b == init + [last];
      assert a + b == (a + init) + [last];
      var x := RewriteFrom(b, ra.state, settings, render);
      assert x == Extend(ri, last, settings, render) by {
        RewriteSnoc(init, last, ra.state, settings, render);
      }
      calc {
        RewriteFrom(a + b, start, settings, render);
        { RewriteSnoc(a + init, last, start, settings, render); }
        Extend(RewriteFrom(a + init, start, settings, render), last, settings, render);
        { RewriteAppend(a, init, start, settings, render); }
        Extend(Rewritten(ra.events + ri.events, ri.state, ra.rendered + ri.rendered), last, settings, render);
        { ExtendAfter(ra, ri, last, settings, render); }
        Rewritten(ra.events + x.events, x.state, ra.rendered + x.rendered);
      }
    }
  }

  /** Extending a rewrite whose output starts with `ra` keeps `ra` in front. */
  lemma ExtendAfter(ra: Rewritten, ri: Rewritten, e: Event, settings: Settings,
                    render: (string, Settings) -> string)
    ensures
      var x := Extend(ri, e, settings, render);
      Extend(Rewritten(ra.events + ri.events, ri.state, ra.rendered + ri.rendered), e, settings, render)
        == Rewritten(ra.events + x.events, x.state, ra.rendered + x.rendered)
  {
    var t := Step(e, ri.state, settings, render);
    assert (ra.events + ri.events) + [t.out] == ra.events + (ri.events + [t.out]);
    assert (ra.rendered + ri.rendered) + Calls(t) == ra.rendered + (ri.rendered + Calls(t));
  }

  /** Appending an event extends the rewrite by one step. */
  lemma RewriteSnoc(events: seq<Event>, e: Event, start: State, settings: Settings,
                    render: (string, Settings) -> string)
    ensures RewriteFrom(events + [e], start, settings, render)
         == Extend(RewriteFrom(events, start, settings, render), e, settings, render)
  {
    assert (events + [e])[..|events|] == events;
  }

  /** With no `bob` fence opening, the state stays `Idle`, every event passes
      through unchanged and the renderer is never called. */
  lemma {:induction false} NoBobStartIsIdentity(events: seq<Event>, settings: Settings,
                                                render: (string, Settings) -> string)
    requires NoBobStart(events)
    ensures RewriteFrom(events, Idle, settings, render) == Rewritten(events, Idle, [])
    decreases |events|
  {
    if events != [] {
      var init := events[..|events| - 1];
      assert NoBobStart(init) by {
        forall i | 0 <= i < |init| ensures !IsBobStart(init[i]) {
          assert init[i] == events[i];
        }
      }
      NoBobStartIsIdentity(init, settings, render);
      assert init + [events[|events| - 1]] == events;
    }
  }

  /** A well-formed `bob` block `Start, Text, End` between two stretches with
      no `bob` block becomes `Start(Paragraph), Html(svg), End(Paragraph)`;
      everything before and after is kept, the text is rendered exactly once
      and the state ends `Idle`. */
  lemma SingleBlock(pre: seq<Event>, text: string, post: seq<Event>, settings: Settings,
                    render: (string, Settings) -> string)
    requires NoBobStart(pre) && NoBobStart(post)
    ensures RewriteFrom(pre + [Start(BobFence), Text(Borrowed(text)), End(BobFence)] + post, Idle, settings, render)
         == Rewritten(pre + [Start(Paragraph), Html(Boxed(render(text, settings))), End(Paragraph)] + post,
                      Idle, [text])
  {
    var block := [Start(BobFence), Text(Borrowed(text)), End(BobFence)];
    var svg := [Start(Paragraph), Html(Boxed(render(text, settings))), End(Paragraph)];
    NoBobStartIsIdentity(pre, settings, render);
    NoBobStartIsIdentity(post, settings, render);
    WellFormedBlock(text, settings, render);
    RewriteAppend(pre, block, Idle, settings, render);
    RewriteAppend(pre + block, post, Idle, settings, render);
  }

  /** The block on its own: the shape of a chapter that is a single `bob`
      fence. */
  lemma WellFormedBlock(text: string, settings: Settings, render: (string, Settings) -> string)
    ensures RewriteFrom([Start(BobFence), Text(Borrowed(text)), End(BobFence)], Idle, settings, render)
         == Rewritten([Start(Paragraph), Html(Boxed(render(text, settings))), End(Paragraph)], Idle, [text])
  {
    var svg := Html(Boxed(render(text, settings)));
    RewriteSnoc([], Start(BobFence), Idle, settings, render);
    assert [] + [Start(BobFence)] == [Start(BobFence)];
    RewriteSnoc([Start(BobFence)], Text(Borrowed(text)), Idle, settings, render);
    assert [Start(BobFence)] + [Text(Borrowed(text))] == [Start(BobFence), Text(Borrowed(text))];
    assert RewriteFrom([Start(BobFence), Text(Borrowed(text))], Idle, settings, render)
        == Rewritten([Start(Paragraph), svg], Closing, [text]);
    RewriteSnoc([Start(BobFence), Text(Borrowed(text))], End(BobFence), Idle, settings, render);
    assert [Start(BobFence), Text(Borrowed(text))] + [End(BobFence)]
        == [Start(BobFence), Text(Borrowed(text)), End(BobFence)];
  }

  /** A `bob` fence with no text inside leaves the machine `Open`: the closing
      fence passes through unchanged, and the next borrowed text of the
      chapter, wherever it is, is rendered as a diagram. */
  lemma EmptyFenceStaysOpen(text: string, settings: Settings, render: (string, Settings) -> string)
    ensures RewriteFrom([Start(BobFence), End(BobFence)], Idle, settings, render)
         == Rewritten([Start(Paragraph), End(BobFence)], Open, [])
    ensures RewriteFrom([Start(BobFence), End(BobFence), Start(Paragraph), Text(Borrowed(text))],
                        Idle, settings, render).rendered == [text]
  {
    var e1 := [Start(BobFence)];
    var e2 := e1 + [End(BobFence)];
    var e3 := e2 + [Start(Paragraph)];
    var e4 := e3 + [Text(Borrowed(text))];
    RewriteSnoc([], Start(BobFence), Idle, settings, render);
    assert [] + e1 == e1;
    assert RewriteFrom(e1, Idle, settings, render) == Rewritten([Start(Paragraph)], Open, []);
    RewriteSnoc(e1, End(BobFence), Idle, settings, render);
    assert RewriteFrom(e2, Idle, settings, render) == Rewritten([Start(Paragraph), End(BobFence)], Open, []);
    RewriteSnoc(e2, Start(Paragraph), Idle, settings, render);
    assert RewriteFrom(e3, Idle, settings, render).state == Open;
    assert RewriteFrom(e3, Idle, settings, render).rendered == [];
    RewriteSnoc(e3, Text(Borrowed(text)), Idle, settings, render);
    assert e2 == [Start(BobFence), End(BobFence)];
    assert e4 == [Start(BobFence), End(BobFence), Start(Paragraph), Text(Borrowed(text))];
  }

  /** A chapter with no `bob` fence is serialized from its own, unmodified
      event stream. */
  lemma NoBobChapterUnchanged(content: string, settings: Settings, lib: Libraries)
    requires NoBobStart(lib.parse(content))
    ensures ChapterOutput(content, settings, lib) == lib.cmark(lib.parse(content))
  {
    NoBobStartIsIdentity(lib.parse(content), settings, lib.bobHandler);
  }
}
