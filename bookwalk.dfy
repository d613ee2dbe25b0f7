/**
 * The chapter walk of `Bob::run`: every chapter of the book, at any depth,
 * is put through `process_code_blocks`; a chapter whose processing succeeds
 * gets the returned text as its content, a chapter whose processing fails
 * keeps its content, and nothing else about the book changes.
 */
module BookWalk {
  import opened Wrappers
  import opened Events
  import opened Collaborators
  import opened Rewriter

  /** An item of the book's table of contents. Chapter metadata other than the
      name (number, paths, parent names) is never read or written here. */
  datatype BookItem =
    | Chapter(name: string, content: string, subItems: seq<BookItem>)
    | Separator
    | PartTitle(title: string)

  datatype Book = Book(sections: seq<BookItem>)

  /** The content a chapter holds after the walk. */
  function Committed(content: string, settings: Settings, lib: Libraries): (c: string)
    ensures ChapterOutput(content, settings, lib).Err? ==> c == content
    ensures ChapterOutput(content, settings, lib).Ok? ==> c == ChapterOutput(content, settings, lib).value
  {
    match ChapterOutput(content, settings, lib)
    case Ok(s) => s
    case Err(_) => content
  }

  /** The items after the walk. */
  function Walked(items: seq<BookItem>, settings: Settings, lib: Libraries): (r: seq<BookItem>)
    ensures |r| == |items|
    decreases items
  {
    if items == [] then []
    else Walked(items[..|items| - 1], settings, lib) + [WalkedItem(items[|items| - 1], settings, lib)]
  }

  function WalkedItem(item: BookItem, settings: Settings, lib: Libraries): BookItem
    decreases item
  {
    match item
    case Chapter(name, content, subItems) =>
      Chapter(name, Committed(content, settings, lib), Walked(subItems, settings, lib))
    case _ => item
  }

  /** Visits every item, sub-items included, and commits each chapter's
      processed text when processing succeeded. */
  method Walk(items: seq<BookItem>, settings: Settings, lib: Libraries) returns (out: seq<BookItem>)
    ensures out == Walked(items, settings, lib)
    decreases items
  {
    out := [];
    var i := 0;
    while i < |items|
      invariant 0 <= i <= |items|
      invariant out == Walked(items[..i], settings, lib)
    {
      var item := items[i];
      if item.Chapter? {
        var subItems := Walk(item.subItems, settings, lib);
        var processed := ProcessCodeBlocks(item.content, settings, lib);
        var content := item.content;
        if processed.Ok? {
          content := processed.value;
        }
        item := Chapter(item.name, content, subItems);
      }
      assert items[..i + 1][..i] == items[..i];
      out := out + [item];
      i := i + 1;
    }
    assert items[..i] == items;
  }

  // ---------------------------------------------------------------------
  // What the walk preserves

  /** The book with every chapter's content blanked: names, separators, part
      titles, nesting and order. */
  function Skeleton(items: seq<BookItem>): (r: seq<BookItem>)
    ensures |r| == |items|
    decreases items
  {
    if items == [] then []
    else Skeleton(items[..|items| - 1]) + [SkeletonItem(items[|items| - 1])]
  }

  function SkeletonItem(item: BookItem): BookItem
    decreases item
  {
    match item
    case Chapter(name, _, subItems) => Chapter(name, "", Skeleton(subItems))
    case _ => item
  }

  /** Chapter contents in document order (a chapter, then its sub-chapters). */
  function Contents(items: seq<BookItem>): seq<string>
    decreases items
  {
    if items == [] then []
    else Contents(items[..|items| - 1]) + ItemContents(items[|items| - 1])
  }

  function ItemContents(item: BookItem): seq<string>
    decreases item
  {
    match item
    case Chapter(_, content, subItems) => [content] + Contents(subItems)
    case _ => []
  }

  /** Each content replaced by its committed value. */
  function CommitAll(contents: seq<string>, settings: Settings, lib: Libraries): (r: seq<string>)
    ensures |r| == |contents|
    ensures forall k :: 0 <= k < |contents| ==> r[k] == Committed(contents[k], settings, lib)
    decreases |contents|
  {
    if contents == [] then []
    else CommitAll(contents[..|contents| - 1], settings, lib) + [Committed(contents[|contents| - 1], settings, lib)]
  }

  /** The walk neither adds, removes, reorders nor renames anything. */
  lemma {:induction false} WalkKeepsSkeleton(items: seq<BookItem>, settings: Settings, lib: Libraries)
    ensures Skeleton(Walked(items, settings, lib)) == Skeleton(items)
    decreases items
  {
    if items != [] {
      var init, last := items[..|items| - 1], items[|items| - 1];
      WalkKeepsSkeleton(init, settings, lib);
      WalkItemKeepsSkeleton(last, settings, lib);
      var w := Walked(items, settings, lib);
      assert w[..|w| - 1] == Walked(init, settings, lib);
    }
  }

  lemma {:induction false} WalkItemKeepsSkeleton(item: BookItem, settings: Settings, lib: Libraries)
    ensures SkeletonItem(WalkedItem(item, settings, lib)) == SkeletonItem(item)
    decreases item
  {
    if item.Chapter? {
      WalkKeepsSkeleton(item.subItems, settings, lib);
    }
  }

  /** The chapter contents after the walk, in document order, are the
      committed values of the contents before it. */
  lemma {:induction false} WalkCommitsContents(items: seq<BookItem>, settings: Settings, lib: Libraries)
    ensures Contents(Walked(items, settings, lib)) == CommitAll(Contents(items), settings, lib)
    decreases items
  {
    if items != [] {
      var init, last := items[..|items| - 1], items[|items| - 1];
      WalkCommitsContents(init, settings, lib);
      WalkItemCommitsContents(last, settings, lib);
      var w := Walked(items, settings, lib);
      assert w[..|w| - 1] == Walked(init, settings, lib);
      CommitAllAppend(Contents(init), ItemContents(last), settings, lib);
    }
  }

  lemma {:induction false} WalkItemCommitsContents(item: BookItem, settings: Settings, lib: Libraries)
    ensures ItemContents(WalkedItem(item, settings, lib)) == CommitAll(ItemContents(item), settings, lib)
    decreases item
  {
    if item.Chapter? {
      WalkCommitsContents(item.subItems, settings, lib);
      CommitAllAppend([item.content], Contents(item.subItems), settings, lib);
    }
  }

  lemma CommitAllAppend(a: seq<string>, b: seq<string>, settings: Settings, lib: Libraries)
    ensures CommitAll(a + b, settings, lib) == CommitAll(a, settings, lib) + CommitAll(b, settings, lib)
  {
    var l, r := CommitAll(a + b, settings, lib), CommitAll(a, settings, lib) + CommitAll(b, settings, lib);
    assert forall k :: 0 <= k < |l| ==> l[k] == r[k] by {
      forall k | 0 <= k < |l| ensures l[k] == r[k] {
        if k < |a| { assert (a + b)[k] == a[k]; } else { assert (a + b)[k] == b[k - |a|]; }
      }
    }
  }

  /** Failure isolation: the k-th chapter of the book ends up with exactly the
      text its processing returned, or, when its processing failed, with the
      content it had; the number of chapters does not change. */
  lemma ChapterOutcomes(items: seq<BookItem>, settings: Settings, lib: Libraries, k: nat)
    requires k < |Contents(items)|
    ensures |Contents(Walked(items, settings, lib))| == |Contents(items)|
    ensures ChapterOutput(Contents(items)[k], settings, lib).Err? ==>
      Contents(Walked(items, settings, lib))[k] == Contents(items)[k]
    ensures ChapterOutput(Contents(items)[k], settings, lib).Ok? ==>
      Contents(Walked(items, settings, lib))[k] == ChapterOutput(Contents(items)[k], settings, lib).value
  {
    WalkCommitsContents(items, settings, lib);
  }
}
