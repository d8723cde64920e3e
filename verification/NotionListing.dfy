/** What a retrieval lists, in its own terms: the texts, files and diagnostics of a page, read off its properties and its
    blocks in preorder. The walk of `NotionWalk` is proved to write exactly these, up to where a limit stops it. */
module NotionListing {
  import opened Prelude
  import opened NotionWalk
  import opened NotionWalker

  // ----- the blocks in the order they are visited

  /** A block, and whether its children are left out for their depth. */
  datatype Visit = Visit(block: Block, cut: bool)

  function Visits(env: Env, children: string -> seq<Block>, depth: nat, blocks: seq<Block>): seq<Visit>
    decreases Room(depth, env.maxDepth + 1), |blocks|
  {
    if blocks == [] then []
    else
      var b := blocks[0];
      var parent := b.Block? && b.hasChildren;
      [Visit(b, parent && depth >= env.maxDepth)]
      + (if parent && depth < env.maxDepth then Visits(env, children, depth + 1, children(b.id)) else [])
      + Visits(env, children, depth, blocks[1..])
  }

  lemma {:induction false} VisitsConcat(env: Env, children: string -> seq<Block>, depth: nat, a: seq<Block>, b: seq<Block>)
    ensures Visits(env, children, depth, a + b) == Visits(env, children, depth, a) + Visits(env, children, depth, b)
    decreases |a|
  {
    if a == [] {
      assert a + b == b;
    } else {
      assert (a + b)[1..] == a[1..] + b;
      VisitsConcat(env, children, depth, a[1..], b);
    }
  }

  // ----- what is listed

  /** One listed item; a listed item's number is its position. */
  datatype Item = Text(id: string, kind: string, text: string) | File(id: string, name: string)

  function FilesIn(items: seq<Item>): nat {
    if items == [] then 0 else FilesIn(items[..|items| - 1]) + if items[|items| - 1].File? then 1 else 0
  }

  /** A usable file is listed while there are fewer than a hundred. */
  function AddFileItem(items: seq<Item>, id: string, form: FileForm): seq<Item> {
    if form.UsableFile? && FilesIn(items) < 100 then items + [File(id, form.name)] else items
  }

  function FileNote(items: seq<Item>, id: string, form: FileForm): seq<Diagnostic> {
    if form.NotAFile? then []
    else if FilesIn(items) >= 100 then [Diagnostic(FileLimit, Some(id))]
    else if form.MalformedFile? then [Diagnostic(BlockFileMalformed, Some(id))]
    else if form.RejectedFile? then [Diagnostic(FileRejected, Some(id))]
    else []
  }

  predicate TextListed(env: Env, b: Block) { b.Block? && b.text != "" && b.textAccepted && env.validId(b.id) }

  predicate TextRefused(env: Env, b: Block) { b.Block? && b.text != "" && !(b.textAccepted && env.validId(b.id)) }

  /** What is listed once these blocks are visited: each block's text before its file. */
  function Listed(env: Env, before: seq<Item>, vs: seq<Visit>): seq<Item> {
    if vs == [] then before
    else
      var items, b := Listed(env, before, vs[..|vs| - 1]), vs[|vs| - 1].block;
      if b.MalformedBlock? then items
      else AddFileItem(if TextListed(env, b) then items + [Text(b.id, b.kind, b.text)] else items, b.id, b.file)
  }

  /** What is reported on the way: a malformed block; a text that is refused; a file that is malformed, rejected or one too
      many; children too deep. */
  function Reported(env: Env, before: seq<Item>, vs: seq<Visit>): seq<Diagnostic> {
    if vs == [] then []
    else
      var v := vs[|vs| - 1];
      Reported(env, before, vs[..|vs| - 1])
      + if v.block.MalformedBlock? then [Diagnostic(BlockMalformed, None)]
        else
          (if TextRefused(env, v.block) then [Diagnostic(TextRejected, Some(v.block.id))] else [])
          + FileNote(Listed(env, before, vs[..|vs| - 1]), v.block.id, v.block.file)
          + (if v.cut then [Diagnostic(DepthLimit, Some(v.block.id))] else [])
  }

  function CountedBlocks(vs: seq<Visit>): nat {
    if vs == [] then 0 else CountedBlocks(vs[..|vs| - 1]) + if vs[|vs| - 1].block.Block? then 1 else 0
  }

  // ----- a state that holds a list

  function ListedTexts(items: seq<Item>): seq<TextBlock> {
    if items == [] then []
    else
      var n := |items| - 1;
      ListedTexts(items[..n]) + if items[n].Text? then [TextBlock(items[n].id, n, items[n].kind, items[n].text)] else []
  }

  function ListedFiles(items: seq<Item>): seq<MaterialFile> {
    if items == [] then []
    else
      var n := |items| - 1;
      ListedFiles(items[..n]) + if items[n].File? then [MaterialFile(items[n].id, n, items[n].name)] else []
  }

  ghost predicate Lists(st: State, items: seq<Item>) {
    st.texts == ListedTexts(items) && st.files == ListedFiles(items) && st.order == |items|
  }

  lemma OneMore(items: seq<Item>, item: Item)
    ensures var n := |items|;
            && ListedTexts(items + [item]) == ListedTexts(items) + (if item.Text? then [TextBlock(item.id, n, item.kind, item.text)] else [])
            && ListedFiles(items + [item]) == ListedFiles(items) + (if item.File? then [MaterialFile(item.id, n, item.name)] else [])
            && FilesIn(items + [item]) == FilesIn(items) + if item.File? then 1 else 0
  {
    assert (items + [item])[..|items|] == items;
  }

  lemma {:induction false} FilesCounted(items: seq<Item>)
    ensures FilesIn(items) == |ListedFiles(items)|
    decreases |items|
  {
    if items != [] { FilesCounted(items[..|items| - 1]); }
  }

  // ----- one visit

  /** The state after visiting these blocks from `st`, on which `items` were listed. */
  ghost predicate Visited(env: Env, st: State, items: seq<Item>, vs: seq<Visit>, after: State) {
    && Lists(after, Listed(env, items, vs)) && after.diagnostics == st.diagnostics + Reported(env, items, vs)
    && after.blocks == st.blocks + CountedBlocks(vs)
  }

  lemma NothingVisited(env: Env, st: State, items: seq<Item>)
    requires Lists(st, items)
    ensures Visited(env, st, items, [], st)
  {}

  lemma CollectLists(env: Env, b: Block, st: State, items: seq<Item>)
    requires b.Block? && Lists(st, items)
    ensures var after := Collect(env, b, st);
            var texted := if TextListed(env, b) then items + [Text(b.id, b.kind, b.text)] else items;
            && Lists(after, AddFileItem(texted, b.id, b.file)) && after.blocks == st.blocks + 1
            && after.diagnostics == st.diagnostics + (if TextRefused(env, b) then [Diagnostic(TextRejected, Some(b.id))] else [])
                                    + FileNote(items, b.id, b.file)
            && after.stopped == st.stopped && after.requests == st.requests
  {
    hide ListedTexts, ListedFiles, FilesIn, AddFileItem, CollectText, CollectFile, TextListed, TextRefused;
    var counted := st.(blocks := st.blocks + 1);
    var texted := TextLists(env, b, counted, items);
    FileLists(b.id, b.file, BlockFileMalformed, CollectText(env, b, counted), texted);
  }

  lemma TextLists(env: Env, b: Block, st: State, items: seq<Item>) returns (texted: seq<Item>)
    requires b.Block? && Lists(st, items)
    ensures texted == (if TextListed(env, b) then items + [Text(b.id, b.kind, b.text)] else items) && FilesIn(texted) == FilesIn(items)
    ensures var after := CollectText(env, b, st);
            && Lists(after, texted) && after.blocks == st.blocks && after.stopped == st.stopped && after.requests == st.requests
            && after.diagnostics == st.diagnostics + (if TextRefused(env, b) then [Diagnostic(TextRejected, Some(b.id))] else [])
  {
    OneMore(items, Text(b.id, b.kind, b.text));
    hide ListedTexts, ListedFiles, FilesIn;
    texted := if TextListed(env, b) then items + [Text(b.id, b.kind, b.text)] else items;
  }

  lemma FileLists(id: string, form: FileForm, malformed: Issue, st: State, items: seq<Item>)
    requires Lists(st, items)
    ensures var after := CollectFile(id, form, malformed, st);
            && Lists(after, AddFileItem(items, id, form))
            && after.diagnostics == st.diagnostics +
                 (if form.NotAFile? then []
                  else if FilesIn(items) >= 100 then [Diagnostic(FileLimit, Some(id))]
                  else if form.MalformedFile? then [Diagnostic(malformed, Some(id))]
                  else if form.RejectedFile? then [Diagnostic(FileRejected, Some(id))]
                  else [])
            && after.stopped == st.stopped && after.requests == st.requests && after.blocks == st.blocks
  {
    FilesCounted(items);
    if form.UsableFile? { OneMore(items, File(id, form.name)); }
    hide ListedTexts, ListedFiles, FilesIn;
  }

  /** One more block of the list. */
  lemma OneVisit(env: Env, st: State, items: seq<Item>, vs: seq<Visit>, mid: State, v: Visit)
    requires Visited(env, st, items, vs, mid)
    ensures var b := v.block;
            var after := if b.MalformedBlock? then mid.Note(BlockMalformed, None)
                         else if v.cut then Collect(env, b, mid).Note(DepthLimit, Some(b.id)) else Collect(env, b, mid);
            Visited(env, st, items, vs + [v], after) && after.stopped == mid.stopped && after.requests == mid.requests
  {
    hide Lists, Collect, Visited;
    var b := v.block;
    if b.MalformedBlock? {
      MalformedVisit(env, st, items, vs, mid, v);
    } else {
      BlockVisit(env, st, items, vs, mid, v);
    }
  }

  lemma MalformedVisit(env: Env, st: State, items: seq<Item>, vs: seq<Visit>, mid: State, v: Visit)
    requires Visited(env, st, items, vs, mid) && v.block.MalformedBlock?
    ensures Visited(env, st, items, vs + [v], mid.Note(BlockMalformed, None))
  {
    VisitStep(env, items, vs, v);
    SameLists(mid, mid.Note(BlockMalformed, None), Listed(env, items, vs));
    hide Lists, Listed, Reported, CountedBlocks;
    var note := [Diagnostic(BlockMalformed, None)];
    assert st.diagnostics + Reported(env, items, vs) + note == st.diagnostics + (Reported(env, items, vs) + note);
  }

  lemma BlockVisit(env: Env, st: State, items: seq<Item>, vs: seq<Visit>, mid: State, v: Visit)
    requires Visited(env, st, items, vs, mid) && v.block.Block?
    ensures var collected := Collect(env, v.block, mid);
            var after := if v.cut then collected.Note(DepthLimit, Some(v.block.id)) else collected;
            Visited(env, st, items, vs + [v], after) && after.stopped == mid.stopped && after.requests == mid.requests
  {
    var b, before := v.block, Listed(env, items, vs);
    VisitStep(env, items, vs, v);
    CollectLists(env, b, mid, before);
    var collected := Collect(env, b, mid);
    SameLists(collected, collected.Note(DepthLimit, Some(b.id)), Listed(env, items, vs + [v]));
    hide Lists, Collect, AddFileItem, FileNote, TextListed, TextRefused, Listed, Reported, CountedBlocks;
    var refused := if TextRefused(env, b) then [Diagnostic(TextRejected, Some(b.id))] else [];
    Joined(st.diagnostics, Reported(env, items, vs), refused, FileNote(before, b.id, b.file),
           if v.cut then [Diagnostic(DepthLimit, Some(b.id))] else []);
  }

  lemma Joined(a: seq<Diagnostic>, b: seq<Diagnostic>, c: seq<Diagnostic>, d: seq<Diagnostic>, e: seq<Diagnostic>)
    ensures a + b + c + d + e == a + (b + (c + d + e)) && a + (b + (c + d + [])) == a + b + c + d
  {
    assert c + d + [] == c + d;
  }

  lemma VisitStep(env: Env, items: seq<Item>, vs: seq<Visit>, v: Visit)
    ensures var b, before, all := v.block, Listed(env, items, vs), vs + [v];
            && Listed(env, items, all) == (if b.MalformedBlock? then before
                 else AddFileItem(if TextListed(env, b) then before + [Text(b.id, b.kind, b.text)] else before, b.id, b.file))
            && Reported(env, items, all) == Reported(env, items, vs) +
                 (if b.MalformedBlock? then [Diagnostic(BlockMalformed, None)]
                  else (if TextRefused(env, b) then [Diagnostic(TextRejected, Some(b.id))] else []) + FileNote(before, b.id, b.file)
                       + (if v.cut then [Diagnostic(DepthLimit, Some(b.id))] else []))
            && CountedBlocks(all) == CountedBlocks(vs) + if b.Block? then 1 else 0
  {
    hide AddFileItem, FileNote, TextListed, TextRefused;
    var all := vs + [v];
    assert all[..|vs|] == vs && all[|vs|] == v;
  }

  // ----- any number of visits

  lemma {:induction false} ListedConcat(env: Env, items: seq<Item>, a: seq<Visit>, b: seq<Visit>)
    ensures Listed(env, items, a + b) == Listed(env, Listed(env, items, a), b)
    ensures Reported(env, items, a + b) == Reported(env, items, a) + Reported(env, Listed(env, items, a), b)
    ensures CountedBlocks(a + b) == CountedBlocks(a) + CountedBlocks(b)
    decreases |b|
  {
    hide AddFileItem, FileNote, TextListed, TextRefused, Listed, Reported, CountedBlocks;
    if b == [] {
      assert a + b == a;
      NothingListed(env, Listed(env, items, a));
      assert Reported(env, items, a) + [] == Reported(env, items, a);
    } else {
      var n := |b| - 1;
      var front, v := b[..n], b[n];
      ListedConcat(env, items, a, front);
      assert a + b == (a + front) + [v] && front + [v] == b;
      VisitStep(env, items, a + front, v);
      VisitStep(env, Listed(env, items, a), front, v);
    }
  }

  lemma NothingListed(env: Env, items: seq<Item>)
    ensures Listed(env, items, []) == items && Reported(env, items, []) == [] && CountedBlocks([]) == 0
  {}

  /** A walk that came this far: not stopped, or stopped by a request or block limit that it has used up. */
  ghost predicate Reached(env: Env, st: State, items: seq<Item>, vs: seq<Visit>, after: State) {
    && Lists(after, Listed(env, items, vs)) && after.blocks == st.blocks + CountedBlocks(vs)
    && (!after.stopped ==> after.diagnostics == st.diagnostics + Reported(env, items, vs))
    && (after.stopped ==> exists d :: after.diagnostics == st.diagnostics + Reported(env, items, vs) + [d] && UsedUp(env, after, d))
  }

  predicate UsedUp(env: Env, after: State, d: Diagnostic) {
    || (d.issue == RequestLimit && after.requests >= env.maxRequests)
    || (d.issue == BlockLimit && after.blocks >= env.maxBlocks)
  }

  /** The walk writes what the first visits list and report, and what all of them do unless it is stopped. */
  ghost predicate Writes(env: Env, st: State, items: seq<Item>, r: Outcome, vs: seq<Visit>) {
    r.Walked? && exists n: nat :: n <= |vs| && Reached(env, st, items, vs[..n], r.state) && (!r.state.stopped ==> n == |vs|)
  }

  lemma WritesNothing(env: Env, st: State, items: seq<Item>, d: Diagnostic, vs: seq<Visit>)
    requires Lists(st, items) && UsedUp(env, st, d)
    ensures Writes(env, st, items, Walked(st.(diagnostics := st.diagnostics + [d], stopped := true)), vs)
  {
    hide ListedTexts, ListedFiles;
    var after := st.(diagnostics := st.diagnostics + [d], stopped := true);
    assert vs[..0] == [];
    assert after.diagnostics == st.diagnostics + [] + [d];
    assert Reached(env, st, items, vs[..0], after);
  }

  lemma WritesAll(env: Env, st: State, items: seq<Item>, vs: seq<Visit>, after: State)
    requires Visited(env, st, items, vs, after) && !after.stopped
    ensures Writes(env, st, items, Walked(after), vs)
  {
    hide Lists;
    assert vs[..|vs|] == vs;
    assert Reached(env, st, items, vs[..|vs|], after);
  }

  /** What a walk that is not stopped has visited. */
  lemma AllVisited(env: Env, st: State, items: seq<Item>, r: Outcome, vs: seq<Visit>)
    requires Writes(env, st, items, r, vs) && !r.state.stopped
    ensures Visited(env, st, items, vs, r.state)
  {
    hide Lists;
    assert vs[..|vs|] == vs;
  }

  /** Going on from where the first blocks lead. */
  lemma WritesOn(env: Env, st: State, items: seq<Item>, first: seq<Visit>, mid: State, r: Outcome, rest: seq<Visit>)
    requires Visited(env, st, items, first, mid) && Writes(env, mid, Listed(env, items, first), r, rest)
    ensures Writes(env, st, items, r, first + rest)
  {
    hide Lists, Listed, Reported, CountedBlocks;
    var n: nat :| n <= |rest| && Reached(env, mid, Listed(env, items, first), rest[..n], r.state) && (!r.state.stopped ==> n == |rest|);
    assert (first + rest)[..|first| + n] == first + rest[..n];
    ListedConcat(env, items, first, rest[..n]);
    var own, more := Reported(env, items, first), Reported(env, Listed(env, items, first), rest[..n]);
    assert st.diagnostics + own + more == st.diagnostics + (own + more);
    assert Reached(env, st, items, (first + rest)[..|first| + n], r.state);
  }

  lemma WritesStopped(env: Env, st: State, items: seq<Item>, r: Outcome, first: seq<Visit>, rest: seq<Visit>)
    requires Writes(env, st, items, r, first) && r.state.stopped
    ensures Writes(env, st, items, r, first + rest)
  {
    hide Reached;
    var n: nat :| n <= |first| && Reached(env, st, items, first[..n], r.state);
    assert (first + rest)[..n] == first[..n];
  }

  /** The first blocks, then the rest unless they stop the walk. */
  lemma WritesThen(env: Env, st: State, items: seq<Item>, first: seq<Visit>, r1: Outcome, rest: seq<Visit>, r2: Outcome)
    requires Writes(env, st, items, r1, first) && r1.Walked?
    requires if r1.state.stopped then r2 == r1 else Writes(env, r1.state, Listed(env, items, first), r2, rest)
    ensures Writes(env, st, items, r2, first + rest)
  {
    WritesWalk(env, st, items, r1, first);
    hide Writes;
    if r1.state.stopped {
      WritesStopped(env, st, items, r1, first, rest);
    } else {
      AllVisited(env, st, items, r1, first);
      WritesOn(env, st, items, first, r1.state, r2, rest);
    }
  }

  lemma ListsAfter(env: Env, st: State, items: seq<Item>, r: Outcome, vs: seq<Visit>)
    requires Writes(env, st, items, r, vs) && !r.state.stopped
    ensures Lists(r.state, Listed(env, items, vs))
  {
    AllVisited(env, st, items, r, vs);
  }

  // ----- the walk

  lemma AnotherRequest(env: Env, st: State, items: seq<Item>, r: Outcome, vs: seq<Visit>, requests: nat)
    requires Writes(env, st.(requests := requests), items, r, vs)
    ensures Writes(env, st, items, r, vs)
  {
    var n: nat :| n <= |vs| && Reached(env, st.(requests := requests), items, vs[..n], r.state) && (!r.state.stopped ==> n == |vs|);
    assert Reached(env, st, items, vs[..n], r.state);
  }

  lemma {:induction false} PagesWrite(env: Env, l: Listing, parent: string, depth: nat, i: nat, seen: set<string>, st: State, items: seq<Item>)
    requires Serves(env, l) && depth <= env.maxDepth && i < |l.pages(parent)| && !st.stopped && Lists(st, items)
    requires forall c :: c in seen ==> exists j: nat :: 0 < j <= i && l.cursor(parent, j) == c
    ensures Writes(env, st, items, WalkPages(env, parent, depth, CursorAt(l, parent, i), seen, st),
                   Visits(env, ChildrenOf(l), depth, Flatten(l.pages(parent)[i..])))
    decreases Room(depth, env.maxDepth + 1), Room(st.requests, env.maxRequests), 0, 0
  {
    hide Writes, Lists;
    var pages := l.pages(parent);
    var rest := Flatten(pages[i + 1..]);
    assert pages[i..][0] == pages[i] && pages[i..][1..] == pages[i + 1..];
    var all := Visits(env, ChildrenOf(l), depth, Flatten(pages[i..]));
    if st.requests >= env.maxRequests {
      WritesNothing(env, st, items, Diagnostic(RequestLimit, Some(parent)), all);
    } else {
      assert PageServed(env, l, st.requests, parent, i) && ParentsValid(env, pages[i]);
      var asked := st.(requests := st.requests + 1);
      SameLists(st, asked, items);
      BlocksWrite(env, l, parent, depth, pages[i], asked, items);
      VisitsConcat(env, ChildrenOf(l), depth, pages[i], rest);
      var r := WalkBlocks(env, parent, depth, pages[i], asked);
      var first, later := Visits(env, ChildrenOf(l), depth, pages[i]), Visits(env, ChildrenOf(l), depth, rest);
      var whole := WalkPages(env, parent, depth, CursorAt(l, parent, i), seen, st);
      WritesWalk(env, asked, items, r, first);
      if !r.state.stopped {
        ListsAfter(env, asked, items, r, first);
        if i + 1 < |pages| {
          var next := l.cursor(parent, i + 1);
          assert next !in seen;
          PagesWrite(env, l, parent, depth, i + 1, seen + {next}, r.state, Listed(env, items, first));
        } else {
          assert rest == [];
          NothingVisited(env, r.state, Listed(env, items, first));
          WritesAll(env, r.state, Listed(env, items, first), [], r.state);
        }
      }
      WritesThen(env, asked, items, first, r, later, whole);
      AnotherRequest(env, st, items, whole, first + later, st.requests + 1);
    }
  }

  lemma WritesWalk(env: Env, st: State, items: seq<Item>, r: Outcome, vs: seq<Visit>)
    requires Writes(env, st, items, r, vs)
    ensures r.Walked?
  {}

  lemma SameLists(st: State, after: State, items: seq<Item>)
    requires Lists(st, items) && after.texts == st.texts && after.files == st.files && after.order == st.order
    ensures Lists(after, items)
  {}

  lemma {:induction false} BlocksWrite(env: Env, l: Listing, parent: string, depth: nat, blocks: seq<Block>, st: State, items: seq<Item>)
    requires Serves(env, l) && depth <= env.maxDepth && ParentsValid(env, blocks) && !st.stopped && Lists(st, items)
    ensures Writes(env, st, items, WalkBlocks(env, parent, depth, blocks, st), Visits(env, ChildrenOf(l), depth, blocks))
    decreases Room(depth, env.maxDepth + 1), Room(st.requests, env.maxRequests), 2, |blocks|
  {
    hide Writes, Lists;
    if blocks == [] {
      NothingVisited(env, st, items);
      WritesAll(env, st, items, [], st);
    } else if st.blocks >= env.maxBlocks {
      WritesNothing(env, st, items, Diagnostic(BlockLimit, Some(parent)), Visits(env, ChildrenOf(l), depth, blocks));
    } else {
      var b := blocks[0];
      BlockWrites(env, l, depth, b, st, items);
      var r := WalkBlock(env, depth, b, st);
      var own, rest := OwnVisits(env, l, depth, b), Visits(env, ChildrenOf(l), depth, blocks[1..]);
      WritesWalk(env, st, items, r, own);
      if !r.state.stopped {
        ListsAfter(env, st, items, r, own);
        BlocksWrite(env, l, parent, depth, blocks[1..], r.state, Listed(env, items, own));
      }
      WritesThen(env, st, items, own, r, rest, WalkBlocks(env, parent, depth, blocks, st));
    }
  }

  /** A block and what is visited below it. */
  function OwnVisits(env: Env, l: Listing, depth: nat, b: Block): seq<Visit> {
    var parent := b.Block? && b.hasChildren;
    [Visit(b, parent && depth >= env.maxDepth)]
    + (if parent && depth < env.maxDepth then Visits(env, ChildrenOf(l), depth + 1, ChildrenOf(l)(b.id)) else [])
  }

  lemma {:induction false} BlockWrites(env: Env, l: Listing, depth: nat, b: Block, st: State, items: seq<Item>)
    requires Serves(env, l) && depth <= env.maxDepth && !st.stopped && Lists(st, items)
    requires b.Block? && b.hasChildren ==> env.validId(b.id)
    ensures Writes(env, st, items, WalkBlock(env, depth, b, st), OwnVisits(env, l, depth, b))
    decreases Room(depth, env.maxDepth + 1), Room(st.requests, env.maxRequests), 1, 1
  {
    hide Writes, Lists, Visited, Collect;
    var v := Visit(b, b.Block? && b.hasChildren && depth >= env.maxDepth);
    NothingVisited(env, st, items);
    OneVisit(env, st, items, [], st, v);
    assert [] + [v] == [v];
    if b.Block? && b.hasChildren && depth < env.maxDepth {
      var collected := Collect(env, b, st);
      var below := Visits(env, ChildrenOf(l), depth + 1, ChildrenOf(l)(b.id));
      VisitedLists(env, st, items, [v], collected);
      assert l.pages(b.id)[0..] == l.pages(b.id);
      assert !collected.stopped && CursorAt(l, b.id, 0) == None;
      PagesWrite(env, l, b.id, depth + 1, 0, {}, collected, Listed(env, items, [v]));
      assert WalkBlock(env, depth, b, st) == WalkPages(env, b.id, depth + 1, None, {}, collected);
      assert Flatten(l.pages(b.id)[0..]) == ChildrenOf(l)(b.id);
      WritesOn(env, st, items, [v], collected, WalkBlock(env, depth, b, st), below);
    } else {
      assert [v] + [] == [v];
      WritesAll(env, st, items, [v], WalkBlock(env, depth, b, st).state);
    }
  }

  lemma VisitedLists(env: Env, st: State, items: seq<Item>, vs: seq<Visit>, after: State)
    requires Visited(env, st, items, vs, after)
    ensures Lists(after, Listed(env, items, vs))
  {}

  /** Against a consistent server the walk writes texts, files and diagnostics exactly as its blocks list and report them
      in preorder, numbered in that order: all of them, or those of the first blocks when a request or block limit is used
      up, which is then reported last. */
  lemma WalkLists(env: Env, l: Listing, root: string, st: State, items: seq<Item>)
    requires Serves(env, l) && !st.stopped && Lists(st, items)
    ensures Writes(env, st, items, Walk(env, root, 0, st), Visits(env, ChildrenOf(l), 0, Flatten(l.pages(root))))
  {
    assert l.pages(root)[0..] == l.pages(root);
    PagesWrite(env, l, root, 0, 0, {}, st, items);
  }

  // ----- the properties before them

  /** An entry of the page's file properties: a property without a list, or an attached item. */
  datatype Entry = Broken(property: string) | Attached(property: string, key: string, form: FileForm)

  function EntriesOf(id: string, items: seq<FileItem>): seq<Entry> {
    seq(|items|, i requires 0 <= i < |items| => Attached(id, items[i].key, items[i].form))
  }

  function Entries(properties: seq<Property>): seq<Entry> {
    if properties == [] then []
    else
      (match properties[0]
       case OtherProperty => []
       case MalformedFiles(id) => [Broken(id)]
       case Files(id, items) => EntriesOf(id, items))
      + Entries(properties[1..])
  }

  function Attachments(es: seq<Entry>): seq<Item> {
    if es == [] then []
    else
      var items, e := Attachments(es[..|es| - 1]), es[|es| - 1];
      if e.Attached? then AddFileItem(items, e.key, e.form) else items
  }

  function EntryNote(e: Entry): seq<Diagnostic> {
    match e
    case Broken(id) => [Diagnostic(PropertyMalformed, Some(id))]
    case Attached(_, key, form) =>
      if form.NotAFile? || form.MalformedFile? then [Diagnostic(FileReferenceMalformed, Some(key))]
      else if form.RejectedFile? then [Diagnostic(FileRejected, Some(key))]
      else []
  }

  function EntryNotes(es: seq<Entry>): seq<Diagnostic> {
    if es == [] then [] else EntryNotes(es[..|es| - 1]) + EntryNote(es[|es| - 1])
  }

  lemma EntryStep(es: seq<Entry>, e: Entry)
    ensures Attachments(es + [e]) == (if e.Attached? then AddFileItem(Attachments(es), e.key, e.form) else Attachments(es))
    ensures EntryNotes(es + [e]) == EntryNotes(es) + EntryNote(e)
  {
    hide AddFileItem, EntryNote;
    assert (es + [e])[..|es|] == es;
  }

  ghost predicate Holds(st: State, es: seq<Entry>) {
    Lists(st, Attachments(es)) && st.diagnostics == EntryNotes(es)
  }

  /** The scan of `todo` after `done`: all of it, or up to an attachment that finds a hundred files, reported last. */
  ghost predicate Scanned(after: State, done: seq<Entry>, todo: seq<Entry>, n: nat) {
    && n <= |todo| && Lists(after, Attachments(done + todo[..n]))
    && if n == |todo| then after.diagnostics == EntryNotes(done + todo)
       else
         && todo[n].Attached? && FilesIn(Attachments(done + todo[..n])) >= 100
         && after.diagnostics == EntryNotes(done + todo[..n]) + [Diagnostic(FileLimit, Some(todo[n].property))]
  }

  lemma ScannedAll(st: State, done: seq<Entry>)
    requires Holds(st, done)
    ensures Scanned(st, done, [], 0)
  {
    hide Lists;
    var none: seq<Entry> := [];
    assert done + none == done && none[..0] == none;
  }

  lemma ScannedOn(after: State, done: seq<Entry>, first: seq<Entry>, rest: seq<Entry>, n: nat)
    requires Scanned(after, done + first, rest, n)
    ensures Scanned(after, done, first + rest, |first| + n)
  {
    hide Lists, Attachments, EntryNotes;
    var todo := first + rest;
    assert todo[..|first| + n] == first + rest[..n] && done + (first + rest[..n]) == done + first + rest[..n];
    assert done + todo == done + first + rest;
  }

  lemma ScannedFull(after: State, done: seq<Entry>, first: seq<Entry>, rest: seq<Entry>, n: nat)
    requires Scanned(after, done, first, n) && n < |first|
    ensures Scanned(after, done, first + rest, n)
  {
    hide Lists, Attachments, EntryNotes;
    assert (first + rest)[..n] == first[..n] && (first + rest)[n] == first[n];
  }

  lemma {:induction false} ItemsScanned(id: string, items: seq<FileItem>, st: State, done: seq<Entry>) returns (n: nat)
    requires Holds(st, done)
    ensures var scan := ScanItems(id, items, st);
            Scanned(scan.state, done, EntriesOf(id, items), n) && (scan.full <==> n < |items|)
    decreases |items|
  {
    hide Lists, Attachments, EntryNotes;
    if items == [] {
      ScannedAll(st, done);
      n := 0;
    } else {
      var e := Attached(id, items[0].key, items[0].form);
      var rest := EntriesOf(id, items[1..]);
      assert EntriesOf(id, items) == [e] + rest;
      FullWhen(st, done);
      if |st.files| >= MAX_FILES {
        n := 0;
        FullScan(st, done, e, rest);
      } else {
        var form := if items[0].form.NotAFile? then MalformedFile else items[0].form;
        var next := CollectFile(items[0].key, form, FileReferenceMalformed, st);
        AttachedOne(st, done, e, next);
        var m := ItemsScanned(id, items[1..], next, done + [e]);
        ScannedOn(ScanItems(id, items, st).state, done, [e], rest, m);
        n := 1 + m;
      }
    }
  }

  lemma FullWhen(st: State, done: seq<Entry>)
    requires Holds(st, done)
    ensures |st.files| == FilesIn(Attachments(done))
  {
    FilesCounted(Attachments(done));
  }

  lemma FullScan(st: State, done: seq<Entry>, e: Entry, rest: seq<Entry>)
    requires Holds(st, done) && e.Attached? && FilesIn(Attachments(done)) >= 100
    ensures Scanned(st.Note(FileLimit, Some(e.property)), done, [e] + rest, 0)
  {
    var todo := [e] + rest;
    assert done + todo[..0] == done && todo[0] == e;
  }

  lemma AttachedOne(st: State, done: seq<Entry>, e: Entry, next: State)
    requires Holds(st, done) && e.Attached? && |st.files| < MAX_FILES
    requires next == CollectFile(e.key, if e.form.NotAFile? then MalformedFile else e.form, FileReferenceMalformed, st)
    ensures Holds(next, done + [e])
  {
    var form := if e.form.NotAFile? then MalformedFile else e.form;
    FullWhen(st, done);
    FileLists(e.key, form, FileReferenceMalformed, st, Attachments(done));
    EntryStep(done, e);
    hide Lists, Attachments, EntryNotes, FilesIn, CollectFile;
  }

  lemma {:induction false} PropertiesScanned(properties: seq<Property>, st: State, done: seq<Entry>) returns (n: nat)
    requires Holds(st, done)
    ensures Scanned(ScanProperties(properties, st), done, Entries(properties), n)
    decreases |properties|
  {
    hide Holds, Scanned;
    if properties == [] {
      ScannedAll(st, done);
      n := 0;
    } else {
      var rest := Entries(properties[1..]);
      match properties[0]
      case OtherProperty =>
        n := PropertiesScanned(properties[1..], st, done);
        assert [] + rest == rest;
      case MalformedFiles(id) =>
        BrokenOne(st, done, id);
        var m := PropertiesScanned(properties[1..], st.Note(PropertyMalformed, Some(id)), done + [Broken(id)]);
        ScannedOn(ScanProperties(properties, st), done, [Broken(id)], rest, m);
        n := 1 + m;
      case Files(id, items) =>
        var first := EntriesOf(id, items);
        var scan := ScanItems(id, items, st);
        var k := ItemsScanned(id, items, st, done);
        if scan.full {
          ScannedFull(scan.state, done, first, rest, k);
          n := k;
        } else {
          ScannedHolds(scan.state, done, first, k);
          var m := PropertiesScanned(properties[1..], scan.state, done + first);
          ScannedOn(ScanProperties(properties, st), done, first, rest, m);
          n := |first| + m;
        }
    }
  }

  lemma BrokenOne(st: State, done: seq<Entry>, id: string)
    requires Holds(st, done)
    ensures Holds(st.Note(PropertyMalformed, Some(id)), done + [Broken(id)])
  {
    EntryStep(done, Broken(id));
    SameLists(st, st.Note(PropertyMalformed, Some(id)), Attachments(done));
    hide Lists, Attachments, EntryNotes;
  }

  lemma ScannedHolds(after: State, done: seq<Entry>, first: seq<Entry>, n: nat)
    requires Scanned(after, done, first, n) && n >= |first|
    ensures Holds(after, done + first)
  {
    hide Lists, Attachments, EntryNotes;
    assert first[..|first|] == first;
  }

  lemma EmptyHolds()
    ensures Holds(EMPTY, [])
  {}

  // ----- the whole retrieval

  /** Once there are a hundred files no further attachment is listed. */
  lemma {:induction false} FullStays(es: seq<Entry>, n: nat)
    requires n <= |es| && FilesIn(Attachments(es[..n])) >= 100
    ensures Attachments(es) == Attachments(es[..n])
    decreases |es|
  {
    if n < |es| {
      var front := es[..|es| - 1];
      assert front[..n] == es[..n] && front + [es[|es| - 1]] == es;
      FullStays(front, n);
      EntryStep(front, es[|es| - 1]);
    } else {
      assert es[..n] == es;
    }
  }

  lemma PropertiesList(properties: seq<Property>)
    ensures var st := ScanProperties(properties, EMPTY); Lists(st, Attachments(Entries(properties))) && !st.stopped
    ensures exists n: nat :: Scanned(ScanProperties(properties, EMPTY), [], Entries(properties), n)
  {
    hide Lists, Attachments, EntryNotes, Entries, ScanProperties;
    EmptyHolds();
    var es := Entries(properties);
    var n := PropertiesScanned(properties, EMPTY, []);
    assert [] + es[..n] == es[..n] && es[..|es|] == es;
    if n < |es| { FullStays(es, n); }
    NeverStopped(properties, EMPTY);
  }

  lemma {:induction false} NeverStopped(properties: seq<Property>, st: State)
    requires !st.stopped
    ensures !ScanProperties(properties, st).stopped
    decreases |properties|
  {
    if properties != [] {
      match properties[0]
      case OtherProperty => NeverStopped(properties[1..], st);
      case MalformedFiles(id) => NeverStopped(properties[1..], st.Note(PropertyMalformed, Some(id)));
      case Files(id, items) =>
        ItemsNeverStop(id, items, st);
        NeverStopped(properties[1..], ScanItems(id, items, st).state);
    }
  }

  lemma {:induction false} ItemsNeverStop(id: string, items: seq<FileItem>, st: State)
    requires !st.stopped
    ensures !ScanItems(id, items, st).state.stopped
    decreases |items|
  {
    if items != [] && |st.files| < MAX_FILES {
      var form := if items[0].form.NotAFile? then MalformedFile else items[0].form;
      ItemsNeverStop(id, items[1..], CollectFile(items[0].key, form, FileReferenceMalformed, st));
    }
  }

  /** A retrieval against a consistent server, in full: the attachments of the properties first, then what the blocks list
      and report in preorder, up to where a limit that is used up ends it. */
  lemma RetrievalLists(env: Env, page: string, properties: seq<Property>, l: Listing)
    requires Serves(env, l)
    ensures var st := ScanProperties(properties, EMPTY);
            Writes(env, st, Attachments(Entries(properties)), Walk(env, page, 0, st), Visits(env, ChildrenOf(l), 0, Flatten(l.pages(page))))
  {
    hide Lists, Attachments, Entries, ScanProperties, Writes;
    PropertiesList(properties);
    WalkLists(env, l, page, ScanProperties(properties, EMPTY), Attachments(Entries(properties)));
  }

  // ----- the files alone

  /** The usable files among attachments and among blocks: whom they belong to and their names. */
  function UsableEntries(es: seq<Entry>): seq<(string, string)> {
    if es == [] then []
    else
      var e := es[|es| - 1];
      UsableEntries(es[..|es| - 1]) + if e.Attached? && e.form.UsableFile? then [(e.key, e.form.name)] else []
  }

  function UsableBlocks(vs: seq<Visit>): seq<(string, string)> {
    if vs == [] then []
    else
      var b := vs[|vs| - 1].block;
      UsableBlocks(vs[..|vs| - 1]) + if b.Block? && b.file.UsableFile? then [(b.id, b.file.name)] else []
  }

  function FileNames(items: seq<Item>): seq<(string, string)> {
    if items == [] then []
    else
      var item := items[|items| - 1];
      FileNames(items[..|items| - 1]) + if item.File? then [(item.id, item.name)] else []
  }

  function Hundred(files: seq<(string, string)>): seq<(string, string)> { if |files| <= 100 then files else files[..100] }

  function Names(files: seq<MaterialFile>): seq<(string, string)> {
    seq(|files|, i requires 0 <= i < |files| => (files[i].id, files[i].name))
  }

  lemma {:induction false} NamesListed(items: seq<Item>)
    ensures Names(ListedFiles(items)) == FileNames(items) && |FileNames(items)| == FilesIn(items)
    decreases |items|
  {
    if items != [] { NamesListed(items[..|items| - 1]); }
  }

  lemma FileNamed(items: seq<Item>, all: seq<(string, string)>, id: string, form: FileForm)
    requires FileNames(items) == Hundred(all)
    ensures FileNames(AddFileItem(items, id, form)) == Hundred(all + if form.UsableFile? then [(id, form.name)] else [])
  {
    NamesListed(items);
    if form.UsableFile? {
      assert (items + [File(id, form.name)])[..|items|] == items;
    }
    assert all + [] == all;
  }

  lemma {:induction false} AttachmentsNamed(es: seq<Entry>)
    ensures FileNames(Attachments(es)) == Hundred(UsableEntries(es))
    decreases |es|
  {
    hide AddFileItem;
    if es != [] {
      var front, e := es[..|es| - 1], es[|es| - 1];
      AttachmentsNamed(front);
      if e.Attached? { FileNamed(Attachments(front), UsableEntries(front), e.key, e.form); }
      assert UsableEntries(front) + [] == UsableEntries(front);
    }
  }

  lemma {:induction false} ListedNamed(env: Env, items: seq<Item>, all: seq<(string, string)>, vs: seq<Visit>)
    requires FileNames(items) == Hundred(all)
    ensures FileNames(Listed(env, items, vs)) == Hundred(all + UsableBlocks(vs))
    decreases |vs|
  {
    hide AddFileItem, TextListed, TextRefused, FileNote, Hundred, Listed, UsableBlocks, FileNames;
    if vs == [] {
      NothingListed(env, items);
      NothingUsable();
      assert all + [] == all;
    } else {
      var front, v := vs[..|vs| - 1], vs[|vs| - 1];
      assert front + [v] == vs;
      ListedNamed(env, items, all, front);
      VisitStep(env, items, front, v);
      UsableStep(front, v);
      var before, b := Listed(env, items, front), v.block;
      var own := if b.Block? && b.file.UsableFile? then [(b.id, b.file.name)] else [];
      assert all + UsableBlocks(front) + own == all + (UsableBlocks(front) + own);
      if b.Block? {
        TextUnnamed(before, Text(b.id, b.kind, b.text));
        FileNamed(if TextListed(env, b) then before + [Text(b.id, b.kind, b.text)] else before, all + UsableBlocks(front), b.id, b.file);
      } else {
        assert all + UsableBlocks(front) + [] == all + UsableBlocks(front);
      }
    }
  }

  lemma NothingUsable()
    ensures UsableBlocks([]) == []
  {}

  lemma UsableStep(vs: seq<Visit>, v: Visit)
    ensures UsableBlocks(vs + [v]) == UsableBlocks(vs) + if v.block.Block? && v.block.file.UsableFile? then [(v.block.id, v.block.file.name)] else []
  {
    assert (vs + [v])[..|vs|] == vs;
  }

  lemma TextUnnamed(items: seq<Item>, text: Item)
    requires text.Text?
    ensures FileNames(items + [text]) == FileNames(items)
  {
    assert (items + [text])[..|items|] == items;
  }

  /** The files of a retrieval: the usable ones of the properties in order, then the usable ones of the blocks in preorder,
      the first hundred of them - of all blocks, unless a request or block limit is reported. */
  lemma RetrievedFiles(env: Env, page: string, properties: seq<Property>, l: Listing)
    requires Serves(env, l)
    ensures var walked := Walk(env, page, 0, ScanProperties(properties, EMPTY));
            var own, below := UsableEntries(Entries(properties)), Visits(env, ChildrenOf(l), 0, Flatten(l.pages(page)));
            && walked.Walked?
            && Names(walked.state.files) <= Hundred(own + UsableBlocks(below))
            && (!HasLimit(walked.state) ==> Names(walked.state.files) == Hundred(own + UsableBlocks(below)))
  {
    var es, st := Entries(properties), ScanProperties(properties, EMPTY);
    var vs := Visits(env, ChildrenOf(l), 0, Flatten(l.pages(page)));
    var r := Walk(env, page, 0, st);
    RetrievalLists(env, page, properties, l);
    RetrievedMaterials(env, page, properties, l);
    hide Walk, Visits, Lists, Entries, ScanProperties, UsableEntries, UsableBlocks, Hundred, Listed, Attachments, Serves, HasLimit;
    var n: nat :| n <= |vs| && Reached(env, st, Attachments(es), vs[..n], r.state) && (!r.state.stopped ==> n == |vs|);
    AttachmentsNamed(es);
    ListedNamed(env, Attachments(es), UsableEntries(es), vs[..n]);
    var items := Listed(env, Attachments(es), vs[..n]);
    HeldFiles(r.state, items);
    UsablePrefix(UsableEntries(es), vs, n);
    assert vs[..|vs|] == vs;
  }

  lemma HeldFiles(st: State, items: seq<Item>)
    requires Lists(st, items)
    ensures Names(st.files) == FileNames(items)
  {
    NamesListed(items);
  }

  lemma HundredGrows(a: seq<(string, string)>, b: seq<(string, string)>)
    requires a <= b
    ensures Hundred(a) <= Hundred(b)
  {}

  lemma LongerBlocks(own: seq<(string, string)>, vs: seq<Visit>)
    requires vs != []
    ensures own + UsableBlocks(vs[..|vs| - 1]) <= own + UsableBlocks(vs)
  {}

  lemma {:induction false} UsablePrefix(own: seq<(string, string)>, vs: seq<Visit>, n: nat)
    requires n <= |vs|
    ensures Hundred(own + UsableBlocks(vs[..n])) <= Hundred(own + UsableBlocks(vs))
    decreases |vs|
  {
    if n < |vs| {
      var front := vs[..|vs| - 1];
      assert front[..n] == vs[..n];
      UsablePrefix(own, front, n);
      LongerBlocks(own, vs);
      hide UsableBlocks;
      HundredGrows(own + UsableBlocks(front), own + UsableBlocks(vs));
      var a, b, c := Hundred(own + UsableBlocks(vs[..n])), Hundred(own + UsableBlocks(front)), Hundred(own + UsableBlocks(vs));
      assert a <= b <= c;
    } else {
      assert vs[..n] == vs && UsableBlocks(vs[..n]) == UsableBlocks(vs);
    }
  }
}
