/** The bounded material walk of `app/connectors/notion.py`: a paginated tree traversal with
    shared counters, compared with the plain preorder walk it approximates. */
module NotionWalk {
  import opened Prelude

  const MAX_FILES := 100
  const MAX_TEXT_BLOCKS := 500
  const MAX_DIAGNOSTICS := 1000

  /** The file a block or property refers to, if any. */
  datatype FileForm = NotAFile | MalformedFile | RejectedFile | UsableFile(name: string)

  datatype Block =
    | MalformedBlock
    | Block(id: string, kind: string, text: string, textAccepted: bool, file: FileForm, hasChildren: bool)

  datatype Page = Page(blocks: seq<Block>, next: Option<string>, hasMore: bool)

  datatype Reply = Answer(page: Page) | ServerFailed

  /** The page server answers a numbered request for one parent and cursor. Nothing is assumed of
      it: it may repeat itself, list cycles, or change its mind between requests. */
  datatype Env = Env(server: (nat, string, Option<string>) -> Reply, validId: string -> bool,
                     maxDepth: nat, maxBlocks: nat, maxRequests: nat)

  datatype Issue =
    | DepthLimit | RequestLimit | BlockLimit | FileLimit
    | BlockMalformed | TextRejected | BlockFileMalformed | FileReferenceMalformed | FileRejected | PropertyMalformed

  datatype Diagnostic = Diagnostic(issue: Issue, subject: Option<string>)

  datatype TextBlock = TextBlock(id: string, order: nat, kind: string, text: string)

  datatype MaterialFile = MaterialFile(id: string, order: nat, name: string)

  /** What the closure `walk` shares across its recursion. */
  datatype State = State(requests: nat, blocks: nat, order: nat, texts: seq<TextBlock>, files: seq<MaterialFile>,
                         diagnostics: seq<Diagnostic>, stopped: bool)
  {
    function Note(issue: Issue, subject: Option<string>): State {
      this.(diagnostics := diagnostics + [Diagnostic(issue, subject)])
    }

    function Stop(issue: Issue, subject: string): State {
      Note(issue, Some(subject)).(stopped := true)
    }
  }

  datatype Outcome = Walked(state: State) | Raised

  // ----- the walk as a function

  function CollectText(env: Env, b: Block, st: State): State
    requires b.Block?
  {
    if b.text == "" then st
    else if b.textAccepted && env.validId(b.id) then
      st.(texts := st.texts + [TextBlock(b.id, st.order, b.kind, b.text)], order := st.order + 1)
    else st.Note(TextRejected, Some(b.id))
  }

  /** `malformed` names a form without usable URL: another one for the files of properties than for those of blocks. */
  function CollectFile(id: string, file: FileForm, malformed: Issue, st: State): State {
    if |st.files| < MAX_FILES then
      match file
      case NotAFile => st
      case MalformedFile => st.Note(malformed, Some(id))
      case RejectedFile => st.Note(FileRejected, Some(id))
      case UsableFile(name) =>
        st.(files := st.files + [MaterialFile(id, st.order, name)], order := st.order + 1)
    else if file != NotAFile then st.Note(FileLimit, Some(id))
    else st
  }

  function Collect(env: Env, b: Block, st: State): State
    requires b.Block?
  {
    CollectFile(b.id, b.file, BlockFileMalformed, CollectText(env, b, st.(blocks := st.blocks + 1)))
  }

  function Room(used: nat, limit: nat): nat { if used < limit then limit - used else 0 }

  function Walk(env: Env, parent: string, depth: nat, st: State): (r: Outcome)
    ensures r.Walked? ==> r.state.requests >= st.requests
    decreases Room(depth, env.maxDepth + 1), Room(st.requests, env.maxRequests), 1, 0
  {
    if st.stopped then Walked(st)
    else if depth > env.maxDepth then Walked(st.Note(DepthLimit, Some(parent)))
    else WalkPages(env, parent, depth, None, {}, st)
  }

  function WalkPages(env: Env, parent: string, depth: nat, cursor: Option<string>, seen: set<string>, st: State): (r: Outcome)
    requires depth <= env.maxDepth
    ensures r.Walked? ==> r.state.requests >= st.requests
    decreases Room(depth, env.maxDepth + 1), Room(st.requests, env.maxRequests), 0, 0
  {
    if st.requests >= env.maxRequests then Walked(st.Stop(RequestLimit, parent))
    else match env.server(st.requests, parent, cursor)
      case ServerFailed => Raised
      case Answer(page) =>
        match WalkBlocks(env, parent, depth, page.blocks, st.(requests := st.requests + 1))
        case Raised => Raised
        case Walked(after) =>
          if after.stopped || !page.hasMore then Walked(after)
          else if page.next.None? || page.next.value in seen then Raised
          else WalkPages(env, parent, depth, page.next, seen + {page.next.value}, after)
  }

  function WalkBlocks(env: Env, parent: string, depth: nat, blocks: seq<Block>, st: State): (r: Outcome)
    requires depth <= env.maxDepth
    ensures r.Walked? ==> r.state.requests >= st.requests
    decreases Room(depth, env.maxDepth + 1), Room(st.requests, env.maxRequests), 2, |blocks|
  {
    if blocks == [] then Walked(st)
    else if st.blocks >= env.maxBlocks then Walked(st.Stop(BlockLimit, parent))
    else
      match WalkBlock(env, depth, blocks[0], st)
      case Raised => Raised
      case Walked(after) =>
        if after.stopped then Walked(after) else WalkBlocks(env, parent, depth, blocks[1..], after)
  }

  /** One block: collect it, then descend. */
  function WalkBlock(env: Env, depth: nat, b: Block, st: State): (r: Outcome)
    requires depth <= env.maxDepth
    ensures r.Walked? ==> r.state.requests >= st.requests
    decreases Room(depth, env.maxDepth + 1), Room(st.requests, env.maxRequests), 1, 1
  {
    if b.MalformedBlock? then Walked(st.Note(BlockMalformed, None))
    else
      var collected := Collect(env, b, st);
      if !b.hasChildren then Walked(collected)
      else if depth >= env.maxDepth then Walked(collected.Note(DepthLimit, Some(b.id)))
      else if !env.validId(b.id) then Raised
      else Walk(env, b.id, depth + 1, collected)
  }

  // ----- what every walk keeps, whatever the server answers

  /** Positions 0..n-1 are dealt out to two ascending lists, each position to exactly one. */
  ghost predicate Shared(a: seq<nat>, b: seq<nat>, n: nat) {
    && (forall i, j :: 0 <= i < j < |a| ==> a[i] < a[j])
    && (forall i, j :: 0 <= i < j < |b| ==> b[i] < b[j])
    && (forall i :: 0 <= i < |a| ==> a[i] < n)
    && (forall i :: 0 <= i < |b| ==> b[i] < n)
    && (forall v: nat :: v < n ==> (v in a <==> v !in b))
  }

  lemma SharedLeft(a: seq<nat>, b: seq<nat>, n: nat)
    requires Shared(a, b, n)
    ensures Shared(a + [n], b, n + 1)
  {
  }

  lemma SharedRight(a: seq<nat>, b: seq<nat>, n: nat)
    requires Shared(a, b, n)
    ensures Shared(a, b + [n], n + 1)
  {
  }

  function TextOrders(st: State): seq<nat> { seq(|st.texts|, i requires 0 <= i < |st.texts| => st.texts[i].order) }

  function FileOrders(st: State): seq<nat> { seq(|st.files|, i requires 0 <= i < |st.files| => st.files[i].order) }

  predicate IsLimit(d: Diagnostic) { d.issue == RequestLimit || d.issue == BlockLimit }

  predicate HasLimit(st: State) { exists i :: 0 <= i < |st.diagnostics| && IsLimit(st.diagnostics[i]) }

  ghost predicate Bounded(env: Env, st: State) {
    && st.requests <= env.maxRequests && st.blocks <= env.maxBlocks && |st.files| <= MAX_FILES
    && Shared(TextOrders(st), FileOrders(st), st.order)
    && (st.stopped <==> HasLimit(st))
  }

  lemma SameOrders(st: State, after: State)
    requires st.texts == after.texts && st.files == after.files && st.order == after.order
    ensures TextOrders(st) == TextOrders(after) && FileOrders(st) == FileOrders(after)
  {
  }

  lemma NoteKeeps(env: Env, st: State, issue: Issue, subject: Option<string>)
    requires Bounded(env, st) && issue != RequestLimit && issue != BlockLimit
    ensures Bounded(env, st.Note(issue, subject))
  {
    var after := st.Note(issue, subject);
    SameOrders(st, after);
    assert forall i :: 0 <= i < |st.diagnostics| ==> after.diagnostics[i] == st.diagnostics[i];
  }

  lemma StopKeeps(env: Env, st: State, issue: Issue, subject: string)
    requires Bounded(env, st) && (issue == RequestLimit || issue == BlockLimit)
    ensures Bounded(env, st.Stop(issue, subject)) && st.Stop(issue, subject).stopped
  {
    var after := st.Stop(issue, subject);
    SameOrders(st, after);
    assert IsLimit(after.diagnostics[|st.diagnostics|]);
  }

  lemma TextKeeps(env: Env, b: Block, st: State)
    requires b.Block? && Bounded(env, st)
    ensures Bounded(env, CollectText(env, b, st))
  {
    hide Shared;
    var after := CollectText(env, b, st);
    if b.text != "" {
      if b.textAccepted && env.validId(b.id) {
        SharedLeft(TextOrders(st), FileOrders(st), st.order);
        assert TextOrders(after) == TextOrders(st) + [st.order] && FileOrders(after) == FileOrders(st);
      } else {
        NoteKeeps(env, st, TextRejected, Some(b.id));
      }
    }
  }

  lemma FileKeeps(env: Env, id: string, file: FileForm, malformed: Issue, st: State)
    requires Bounded(env, st) && malformed != RequestLimit && malformed != BlockLimit
    ensures Bounded(env, CollectFile(id, file, malformed, st))
  {
    hide Shared;
    var after := CollectFile(id, file, malformed, st);
    if |st.files| < MAX_FILES && file.UsableFile? {
      SharedRight(TextOrders(st), FileOrders(st), st.order);
      assert FileOrders(after) == FileOrders(st) + [st.order] && TextOrders(after) == TextOrders(st);
    } else if after != st {
      NoteKeeps(env, st, after.diagnostics[|st.diagnostics|].issue, Some(id));
    }
  }

  lemma CollectKeeps(env: Env, b: Block, st: State)
    requires b.Block? && Bounded(env, st) && st.blocks < env.maxBlocks
    ensures Bounded(env, Collect(env, b, st))
  {
    hide Shared, CollectText, CollectFile;
    var counted := st.(blocks := st.blocks + 1);
    SameOrders(st, counted);
    TextKeeps(env, b, counted);
    FileKeeps(env, b.id, b.file, BlockFileMalformed, CollectText(env, b, counted));
  }

  /** For every server - cyclic, repeating, inconsistent - the walk ends within its request, block
      and file limits, numbers its output without gap or repetition, and stops early exactly when
      it reports a request or block limit. */
  lemma {:induction false} WalkKeeps(env: Env, parent: string, depth: nat, st: State)
    requires Bounded(env, st)
    ensures Walk(env, parent, depth, st).Walked? ==> Bounded(env, Walk(env, parent, depth, st).state)
    decreases Room(depth, env.maxDepth + 1), Room(st.requests, env.maxRequests), 1, 0
  {
    if !st.stopped {
      if depth > env.maxDepth {
        NoteKeeps(env, st, DepthLimit, Some(parent));
      } else {
        PagesKeep(env, parent, depth, None, {}, st);
      }
    }
  }

  lemma {:induction false} PagesKeep(env: Env, parent: string, depth: nat, cursor: Option<string>, seen: set<string>, st: State)
    requires depth <= env.maxDepth && Bounded(env, st) && !st.stopped
    ensures var r := WalkPages(env, parent, depth, cursor, seen, st); r.Walked? ==> Bounded(env, r.state)
    decreases Room(depth, env.maxDepth + 1), Room(st.requests, env.maxRequests), 0, 0
  {
    if st.requests >= env.maxRequests {
      StopKeeps(env, st, RequestLimit, parent);
    } else if env.server(st.requests, parent, cursor).Answer? {
      var page := env.server(st.requests, parent, cursor).page;
      var asked := st.(requests := st.requests + 1);
      SameOrders(st, asked);
      BlocksKeep(env, parent, depth, page.blocks, asked);
      var r := WalkBlocks(env, parent, depth, page.blocks, asked);
      if r.Walked? && !r.state.stopped && page.hasMore && page.next.Some? && page.next.value !in seen {
        PagesKeep(env, parent, depth, page.next, seen + {page.next.value}, r.state);
      }
    }
  }

  lemma {:induction false} BlocksKeep(env: Env, parent: string, depth: nat, blocks: seq<Block>, st: State)
    requires depth <= env.maxDepth && Bounded(env, st) && !st.stopped
    ensures var r := WalkBlocks(env, parent, depth, blocks, st); r.Walked? ==> Bounded(env, r.state)
    decreases Room(depth, env.maxDepth + 1), Room(st.requests, env.maxRequests), 2, |blocks|
  {
    if blocks != [] {
      if st.blocks >= env.maxBlocks {
        StopKeeps(env, st, BlockLimit, parent);
      } else {
        BlockKeeps(env, depth, blocks[0], st);
        var r := WalkBlock(env, depth, blocks[0], st);
        if r.Walked? && !r.state.stopped {
          BlocksKeep(env, parent, depth, blocks[1..], r.state);
        }
      }
    }
  }

  lemma {:induction false} BlockKeeps(env: Env, depth: nat, b: Block, st: State)
    requires depth <= env.maxDepth && Bounded(env, st) && !st.stopped && st.blocks < env.maxBlocks
    ensures var r := WalkBlock(env, depth, b, st); r.Walked? ==> Bounded(env, r.state)
    decreases Room(depth, env.maxDepth + 1), Room(st.requests, env.maxRequests), 1, 1
  {
    if b.MalformedBlock? {
      NoteKeeps(env, st, BlockMalformed, None);
    } else {
      CollectKeeps(env, b, st);
      var collected := Collect(env, b, st);
      if b.hasChildren && depth >= env.maxDepth {
        NoteKeeps(env, collected, DepthLimit, Some(b.id));
      } else if b.hasChildren && env.validId(b.id) {
        WalkKeeps(env, b.id, depth + 1, collected);
      }
    }
  }

  // ----- the plain preorder walk

  /** What one block contributes to the body text. */
  function TextOf(env: Env, b: Block): seq<(string, string)> {
    if b.Block? && b.text != "" && b.textAccepted && env.validId(b.id) then [(b.id, b.text)] else []
  }

  /** Preorder texts of a forest whose children are given by `children`, cut at the depth limit.
      The lists may be cyclic: the depth bounds the unrolling. */
  function Preorder(env: Env, children: string -> seq<Block>, depth: nat, blocks: seq<Block>): seq<(string, string)>
    decreases Room(depth, env.maxDepth + 1), |blocks|
  {
    if blocks == [] then []
    else
      var b := blocks[0];
      TextOf(env, b)
      + (if b.Block? && b.hasChildren && depth < env.maxDepth then Preorder(env, children, depth + 1, children(b.id)) else [])
      + Preorder(env, children, depth, blocks[1..])
  }

  /** The pages a consistent server deals a parent's children in, with their cursors. */
  datatype Listing = Listing(pages: string -> seq<seq<Block>>, cursor: (string, nat) -> string)

  function Flatten(pages: seq<seq<Block>>): seq<Block> {
    if pages == [] then [] else pages[0] + Flatten(pages[1..])
  }

  function ChildrenOf(l: Listing): string -> seq<Block> {
    (id: string) => Flatten(l.pages(id))
  }

  function CursorAt(l: Listing, parent: string, i: nat): Option<string> {
    if i == 0 then None else Some(l.cursor(parent, i))
  }

  /** The server lists every parent's children page by page, under cursors it never reuses for
      that parent, and only blocks with well-formed ids claim children. */
  ghost predicate Serves(env: Env, l: Listing) {
    && (forall parent: string :: l.pages(parent) != [])
    && (forall parent: string, i: nat, j: nat :: 0 < i < j < |l.pages(parent)| ==> l.cursor(parent, i) != l.cursor(parent, j))
    && (forall r: nat, parent: string, i: nat :: i < |l.pages(parent)| ==> PageServed(env, l, r, parent, i))
    && (forall parent: string, i: nat :: i < |l.pages(parent)| ==> ParentsValid(env, l.pages(parent)[i]))
  }

  ghost predicate PageServed(env: Env, l: Listing, r: nat, parent: string, i: nat)
    requires i < |l.pages(parent)|
  {
    var pages := l.pages(parent);
    var more := i + 1 < |pages|;
    env.server(r, parent, CursorAt(l, parent, i))
    == Answer(Page(pages[i], if more then Some(l.cursor(parent, i + 1)) else None, more))
  }

  ghost predicate ParentsValid(env: Env, blocks: seq<Block>) {
    forall i :: 0 <= i < |blocks| && blocks[i].Block? && blocks[i].hasChildren ==> env.validId(blocks[i].id)
  }

  function Texts(st: State): seq<(string, string)> {
    seq(|st.texts|, i requires 0 <= i < |st.texts| => (st.texts[i].id, st.texts[i].text))
  }

  /** The walk wrote a prefix of the expected texts, and all of them unless it was stopped. */
  ghost predicate Follows(st: State, r: Outcome, expected: seq<(string, string)>) {
    && r.Walked?
    && Texts(st) <= Texts(r.state) <= Texts(st) + expected
    && (!r.state.stopped ==> Texts(r.state) == Texts(st) + expected)
  }

  lemma CollectWrites(env: Env, b: Block, st: State)
    requires b.Block?
    ensures Texts(Collect(env, b, st)) == Texts(st) + TextOf(env, b)
    ensures Collect(env, b, st).stopped == st.stopped
  {
    var texted := CollectText(env, b, st.(blocks := st.blocks + 1));
    assert Texts(texted) == Texts(st) + TextOf(env, b);
    assert Collect(env, b, st).texts == texted.texts;
  }

  lemma FollowsThen(st: State, mid: State, r: Outcome, first: seq<(string, string)>, rest: seq<(string, string)>)
    requires Texts(mid) == Texts(st) + first && Follows(mid, r, rest)
    ensures Follows(st, r, first + rest)
  {
    assert Texts(st) + first + rest == Texts(st) + (first + rest);
  }

  lemma FollowsStopped(st: State, r: Outcome, first: seq<(string, string)>, rest: seq<(string, string)>)
    requires Follows(st, r, first) && r.state.stopped
    ensures Follows(st, r, first + rest)
  {
    assert Texts(st) + first + rest == Texts(st) + (first + rest);
  }

  lemma {:induction false} PagesFollow(env: Env, l: Listing, parent: string, depth: nat, i: nat, seen: set<string>, st: State)
    requires Serves(env, l) && depth <= env.maxDepth && i < |l.pages(parent)| && !st.stopped
    requires forall c :: c in seen ==> exists j: nat :: 0 < j <= i && l.cursor(parent, j) == c
    ensures Follows(st, WalkPages(env, parent, depth, CursorAt(l, parent, i), seen, st),
                    Preorder(env, ChildrenOf(l), depth, Flatten(l.pages(parent)[i..])))
    decreases Room(depth, env.maxDepth + 1), Room(st.requests, env.maxRequests), 0, 0
  {
    var pages := l.pages(parent);
    var rest := Flatten(pages[i + 1..]);
    assert pages[i..][0] == pages[i] && pages[i..][1..] == pages[i + 1..];
    var expected := Preorder(env, ChildrenOf(l), depth, Flatten(pages[i..]));
    if st.requests >= env.maxRequests {
      assert Texts(st.Stop(RequestLimit, parent)) == Texts(st);
    } else {
      assert PageServed(env, l, st.requests, parent, i) && ParentsValid(env, pages[i]);
      var asked := st.(requests := st.requests + 1);
      assert Texts(asked) == Texts(st);
      BlocksFollow(env, l, parent, depth, pages[i], asked);
      PreorderConcat(env, ChildrenOf(l), depth, pages[i], rest);
      var r := WalkBlocks(env, parent, depth, pages[i], asked);
      var first := Preorder(env, ChildrenOf(l), depth, pages[i]);
      if r.state.stopped {
        FollowsStopped(asked, r, first, Preorder(env, ChildrenOf(l), depth, rest));
      } else if i + 1 < |pages| {
        var next := l.cursor(parent, i + 1);
        assert next !in seen;
        PagesFollow(env, l, parent, depth, i + 1, seen + {next}, r.state);
        FollowsThen(asked, r.state, WalkPages(env, parent, depth, Some(next), seen + {next}, r.state), first,
                    Preorder(env, ChildrenOf(l), depth, rest));
      } else {
        assert rest == [];
        assert first + [] == first;
      }
    }
  }

  lemma {:induction false} BlocksFollow(env: Env, l: Listing, parent: string, depth: nat, blocks: seq<Block>, st: State)
    requires Serves(env, l) && depth <= env.maxDepth && ParentsValid(env, blocks) && !st.stopped
    ensures Follows(st, WalkBlocks(env, parent, depth, blocks, st), Preorder(env, ChildrenOf(l), depth, blocks))
    decreases Room(depth, env.maxDepth + 1), Room(st.requests, env.maxRequests), 2, |blocks|
  {
    if blocks == [] {
      assert Texts(st) + [] == Texts(st);
    } else if st.blocks >= env.maxBlocks {
      assert Texts(st.Stop(BlockLimit, parent)) == Texts(st);
    } else {
      var b := blocks[0];
      BlockFollows(env, l, depth, b, st);
      var r := WalkBlock(env, depth, b, st);
      var own, rest := BlockTexts(env, l, depth, b), Preorder(env, ChildrenOf(l), depth, blocks[1..]);
      if r.state.stopped {
        FollowsStopped(st, r, own, rest);
      } else {
        BlocksFollow(env, l, parent, depth, blocks[1..], r.state);
        FollowsThen(st, r.state, WalkBlocks(env, parent, depth, blocks[1..], r.state), own, rest);
      }
    }
  }

  /** The texts of one block and what is below it. */
  function BlockTexts(env: Env, l: Listing, depth: nat, b: Block): seq<(string, string)> {
    TextOf(env, b)
    + (if b.Block? && b.hasChildren && depth < env.maxDepth then Preorder(env, ChildrenOf(l), depth + 1, ChildrenOf(l)(b.id)) else [])
  }

  lemma {:induction false} BlockFollows(env: Env, l: Listing, depth: nat, b: Block, st: State)
    requires Serves(env, l) && depth <= env.maxDepth && !st.stopped
    requires b.Block? && b.hasChildren ==> env.validId(b.id)
    ensures Follows(st, WalkBlock(env, depth, b, st), BlockTexts(env, l, depth, b))
    decreases Room(depth, env.maxDepth + 1), Room(st.requests, env.maxRequests), 1, 1
  {
    if b.Block? {
      CollectWrites(env, b, st);
      var collected := Collect(env, b, st);
      if b.hasChildren && depth < env.maxDepth {
        var below := Preorder(env, ChildrenOf(l), depth + 1, ChildrenOf(l)(b.id));
        assert l.pages(b.id)[0..] == l.pages(b.id);
        PagesFollow(env, l, b.id, depth + 1, 0, {}, collected);
        FollowsThen(st, collected, Walk(env, b.id, depth + 1, collected), TextOf(env, b), below);
      } else {
        assert TextOf(env, b) + [] == TextOf(env, b);
        assert Texts(collected.Note(DepthLimit, Some(b.id))) == Texts(collected);
      }
    } else {
      assert Texts(st.Note(BlockMalformed, None)) == Texts(st) + [];
      assert TextOf(env, b) + [] == [];
    }
  }

  lemma {:induction false} PreorderConcat(env: Env, children: string -> seq<Block>, depth: nat, a: seq<Block>, b: seq<Block>)
    ensures Preorder(env, children, depth, a + b) == Preorder(env, children, depth, a) + Preorder(env, children, depth, b)
    decreases |a|
  {
    if a == [] {
      assert a + b == b;
    } else {
      assert (a + b)[1..] == a[1..] + b;
      PreorderConcat(env, children, depth, a[1..], b);
    }
  }

  /** Against a consistent server the walk reports a prefix of the preorder texts of the page's
      tree, cut at the depth limit, and all of them unless it reports a limit. */
  lemma WalkIsPreorder(env: Env, l: Listing, root: string, st: State)
    requires Serves(env, l) && Bounded(env, st) && !st.stopped
    ensures var r := Walk(env, root, 0, st);
            && r.Walked? && Bounded(env, r.state)
            && Texts(r.state) <= Texts(st) + Preorder(env, ChildrenOf(l), 0, Flatten(l.pages(root)))
            && (!HasLimit(r.state) ==> Texts(r.state) == Texts(st) + Preorder(env, ChildrenOf(l), 0, Flatten(l.pages(root))))
  {
    WalkKeeps(env, root, 0, st);
    assert l.pages(root)[0..] == l.pages(root);
    PagesFollow(env, l, root, 0, 0, {}, st);
  }
}
