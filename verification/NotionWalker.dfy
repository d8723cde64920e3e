/** The walk as the connector runs it: one recursive closure over shared counters, flags and
    lists, preceded by the page's file properties and followed by the model's size limits. */
module NotionWalker {
  import opened Prelude
  import opened NotionWalk

  // ----- the page's own file properties

  datatype FileItem = FileItem(key: string, form: FileForm)

  datatype Property = OtherProperty | MalformedFiles(id: string) | Files(id: string, items: seq<FileItem>)

  const EMPTY := State(0, 0, 0, [], [], [], false)

  /** One file property; `full` reports that the file limit ended the scan. */
  datatype Scan = Scan(state: State, full: bool)

  function ScanItems(id: string, items: seq<FileItem>, st: State): Scan
    decreases |items|
  {
    if items == [] then Scan(st, false)
    else if |st.files| >= MAX_FILES then Scan(st.Note(FileLimit, Some(id)), true)
    else
      var item := items[0];
      // An item that is not a mapping, or has no usable URL, is malformed.
      var form := if item.form.NotAFile? then MalformedFile else item.form;
      ScanItems(id, items[1..], CollectFile(item.key, form, FileReferenceMalformed, st))
  }

  function ScanProperties(properties: seq<Property>, st: State): State
    decreases |properties|
  {
    if properties == [] then st
    else match properties[0]
      case OtherProperty => ScanProperties(properties[1..], st)
      case MalformedFiles(id) => ScanProperties(properties[1..], st.Note(PropertyMalformed, Some(id)))
      case Files(id, items) =>
        var scan := ScanItems(id, items, st);
        if scan.full then scan.state else ScanProperties(properties[1..], scan.state)
  }

  lemma {:induction false} ItemsKeep(env: Env, id: string, items: seq<FileItem>, st: State)
    requires Bounded(env, st)
    ensures Bounded(env, ScanItems(id, items, st).state)
    ensures var after := ScanItems(id, items, st).state; after.texts == st.texts && after.stopped == st.stopped
    decreases |items|
  {
    hide Bounded;
    if items != [] {
      if |st.files| >= MAX_FILES {
        NoteKeeps(env, st, FileLimit, Some(id));
      } else {
        var form := if items[0].form.NotAFile? then MalformedFile else items[0].form;
        FileKeeps(env, items[0].key, form, FileReferenceMalformed, st);
        ItemsKeep(env, id, items[1..], CollectFile(items[0].key, form, FileReferenceMalformed, st));
      }
    }
  }

  /** Property files come first and number from zero without gaps. */
  lemma {:induction false} PropertiesKeep(env: Env, properties: seq<Property>, st: State)
    requires Bounded(env, st)
    ensures Bounded(env, ScanProperties(properties, st))
    ensures ScanProperties(properties, st).texts == st.texts && ScanProperties(properties, st).stopped == st.stopped
    decreases |properties|
  {
    hide Bounded;
    if properties != [] {
      match properties[0]
      case OtherProperty => PropertiesKeep(env, properties[1..], st);
      case MalformedFiles(id) =>
        NoteKeeps(env, st, PropertyMalformed, Some(id));
        PropertiesKeep(env, properties[1..], st.Note(PropertyMalformed, Some(id)));
      case Files(id, items) =>
        ItemsKeep(env, id, items, st);
        var scan := ScanItems(id, items, st);
        if !scan.full {
          PropertiesKeep(env, properties[1..], scan.state);
        }
    }
  }

  // ----- the shared state

  class Walker {
    var requests: nat
    var blocks: nat
    var order: nat
    var texts: seq<TextBlock>
    var files: seq<MaterialFile>
    var diagnostics: seq<Diagnostic>
    var stopped: bool

    function Now(): State
      reads this
    {
      State(requests, blocks, order, texts, files, diagnostics, stopped)
    }

    constructor ()
      ensures Now() == EMPTY
    {
      requests, blocks, order, texts, files, diagnostics, stopped := 0, 0, 0, [], [], [], false;
    }

    method Report(issue: Issue, subject: Option<string>)
      modifies this`diagnostics
      ensures Now() == old(Now()).Note(issue, subject)
    {
      diagnostics := diagnostics + [Diagnostic(issue, subject)];
    }

    method AddFile(id: string, file: FileForm, malformed: Issue)
      modifies this`files, this`order, this`diagnostics
      ensures Now() == CollectFile(id, file, malformed, old(Now()))
    {
      if |files| < MAX_FILES {
        match file {
          case NotAFile =>
          case MalformedFile => Report(malformed, Some(id));
          case RejectedFile => Report(FileRejected, Some(id));
          case UsableFile(name) =>
            files := files + [MaterialFile(id, order, name)];
            order := order + 1;
        }
      } else if file != NotAFile {
        Report(FileLimit, Some(id));
      }
    }

    /** `_property_file_items`. */
    method AddPropertyFiles(properties: seq<Property>)
      modifies this
      ensures Now() == ScanProperties(properties, old(Now()))
    {
      ghost var start := Now();
      for p := 0 to |properties|
        invariant ScanProperties(properties, start) == ScanProperties(properties[p..], Now())
      {
        assert properties[p..][0] == properties[p] && properties[p..][1..] == properties[p + 1..];
        match properties[p] {
          case OtherProperty =>
          case MalformedFiles(id) => Report(PropertyMalformed, Some(id));
          case Files(id, items) =>
            ghost var before := Now();
            for i := 0 to |items|
              invariant ScanItems(id, items, before) == ScanItems(id, items[i..], Now())
            {
              assert items[i..][0] == items[i] && items[i..][1..] == items[i + 1..];
              if |files| >= MAX_FILES {
                Report(FileLimit, Some(id));
                return;
              }
              AddFile(items[i].key, if items[i].form.NotAFile? then MalformedFile else items[i].form, FileReferenceMalformed);
            }
        }
      }
    }

    method AddBlock(env: Env, b: Block)
      requires b.Block?
      modifies this
      ensures Now() == Collect(env, b, old(Now()))
    {
      blocks := blocks + 1;
      if b.text != "" {
        if b.textAccepted && env.validId(b.id) {
          texts := texts + [TextBlock(b.id, order, b.kind, b.text)];
          order := order + 1;
        } else {
          Report(TextRejected, Some(b.id));
        }
      }
      AddFile(b.id, b.file, BlockFileMalformed);
    }

    /** The closure `walk`; `ok` is false when it raised. */
    method Walk(env: Env, parent: string, depth: nat) returns (ok: bool)
      modifies this
      ensures var r := NotionWalk.Walk(env, parent, depth, old(Now())); ok == r.Walked? && (ok ==> Now() == r.state)
      decreases Room(depth, env.maxDepth + 1), 1
    {
      if stopped {
        return true;
      }
      if depth > env.maxDepth {
        Report(DepthLimit, Some(parent));
        return true;
      }
      ghost var start := Now();
      var cursor: Option<string>, seen: set<string> := None, {};
      while true
        invariant !stopped
        invariant WalkPages(env, parent, depth, None, {}, start) == WalkPages(env, parent, depth, cursor, seen, Now())
        decreases Room(requests, env.maxRequests)
      {
        if requests >= env.maxRequests {
          Report(RequestLimit, Some(parent));
          stopped := true;
          return true;
        }
        var reply := env.server(requests, parent, cursor);
        if reply.ServerFailed? {
          return false;
        }
        var page := reply.page;
        requests := requests + 1;
        ghost var asked := Now();
        ok := WalkList(env, parent, depth, page.blocks);
        if !ok {
          return false;
        }
        if stopped || !page.hasMore {
          return true;
        }
        if page.next.None? || page.next.value in seen {
          return false;
        }
        cursor := page.next;
        seen := seen + {page.next.value};
      }
    }

    /** The blocks of one fetched page. */
    method WalkList(env: Env, parent: string, depth: nat, list: seq<Block>) returns (ok: bool)
      requires depth <= env.maxDepth && !stopped
      modifies this
      ensures var r := WalkBlocks(env, parent, depth, list, old(Now())); ok == r.Walked? && (ok ==> Now() == r.state)
      decreases Room(depth, env.maxDepth + 1), 0
    {
      ghost var start := Now();
      for i := 0 to |list|
        invariant !stopped
        invariant WalkBlocks(env, parent, depth, list, start) == WalkBlocks(env, parent, depth, list[i..], Now())
      {
        ghost var before := Now();
        assert list[i..][0] == list[i] && list[i..][1..] == list[i + 1..];
        if blocks >= env.maxBlocks {
          Report(BlockLimit, Some(parent));
          stopped := true;
          return true;
        }
        var b := list[i];
        if b.MalformedBlock? {
          Report(BlockMalformed, None);
          continue;
        }
        AddBlock(env, b);
        CollectWrites(env, b, before);
        if b.hasChildren {
          if depth >= env.maxDepth {
            Report(DepthLimit, Some(b.id));
          } else {
            if !env.validId(b.id) {
              return false;
            }
            ok := Walk(env, b.id, depth + 1);
            if !ok {
              return false;
            }
            if stopped {
              return true;
            }
          }
        }
      }
      return true;
    }
  }

  // ----- the whole retrieval

  /** The result model accepts at most 500 texts, 100 files and 1000 diagnostics. */
  predicate Accepted(st: State) {
    |st.texts| <= MAX_TEXT_BLOCKS && |st.files| <= MAX_FILES && |st.diagnostics| <= MAX_DIAGNOSTICS
  }

  method RetrieveMaterials(env: Env, page: string, properties: seq<Property>) returns (r: Option<State>)
    ensures var walked := NotionWalk.Walk(env, page, 0, ScanProperties(properties, EMPTY));
            r == if walked.Walked? && Accepted(walked.state) then Some(walked.state) else None
    ensures r.Some? ==> |r.value.texts| <= 500 && |r.value.files| <= 100 && |r.value.diagnostics| <= 1000
  {
    var walker := new Walker();
    walker.AddPropertyFiles(properties);
    var ok := walker.Walk(env, page, 0);
    if !ok || |walker.texts| > MAX_TEXT_BLOCKS || |walker.files| > MAX_FILES || |walker.diagnostics| > MAX_DIAGNOSTICS {
      return None;
    }
    return Some(walker.Now());
  }

  /** A finished walk is handed out if and only if it wrote at most 500 texts and 1000 diagnostics: the walk itself keeps
      the files to a hundred. */
  lemma AcceptedIff(env: Env, page: string, properties: seq<Property>)
    ensures var walked := NotionWalk.Walk(env, page, 0, ScanProperties(properties, EMPTY));
            walked.Walked? ==>
              |walked.state.files| <= 100 && (Accepted(walked.state) <==> |walked.state.texts| <= 500 && |walked.state.diagnostics| <= 1000)
  {
    EmptyBounded(env);
    PropertiesKeep(env, properties, EMPTY);
    WalkKeeps(env, page, 0, ScanProperties(properties, EMPTY));
  }

  lemma EmptyBounded(env: Env)
    ensures Bounded(env, EMPTY)
  {
    assert TextOrders(EMPTY) == [] && FileOrders(EMPTY) == [];
  }

  /** What a retrieval returns, for any server and for a consistent one. */
  lemma RetrievedMaterials(env: Env, page: string, properties: seq<Property>, l: Listing)
    ensures var walked := NotionWalk.Walk(env, page, 0, ScanProperties(properties, EMPTY));
            && (walked.Walked? ==> Bounded(env, walked.state))
            && (Serves(env, l) ==>
                  && walked.Walked?
                  && Texts(walked.state) <= Preorder(env, ChildrenOf(l), 0, Flatten(l.pages(page)))
                  && (!HasLimit(walked.state) ==>
                        Texts(walked.state) == Preorder(env, ChildrenOf(l), 0, Flatten(l.pages(page)))))
  {
    hide Bounded;
    var st := ScanProperties(properties, EMPTY);
    EmptyBounded(env);
    PropertiesKeep(env, properties, EMPTY);
    WalkKeeps(env, page, 0, st);
    if Serves(env, l) {
      WalkIsPreorder(env, l, page, st);
      var expected := Preorder(env, ChildrenOf(l), 0, Flatten(l.pages(page)));
      assert Texts(st) + expected == expected;
    }
  }
}
