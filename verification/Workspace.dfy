// `PageIndexClient` with a workspace: documents are written to files, dropped from memory, loaded
// again on demand and listed through `_meta.json`.  The reference is the client without a workspace,
// which keeps every document it has indexed.
module Workspace {
  import opened Common
  import opened Forest
  import R = Retrieve
  import Text

  type Id = nat
  datatype Kind = Pdf | Md

  /** An entry of `_meta.json`; `count` is page_count for a PDF and line_count for Markdown. */
  datatype Meta = Meta(kind: Kind, name: string, description: string, path: string, count: nat)

  /** A document dict: None stands for a missing key. */
  datatype Doc = Doc(meta: Meta, structure: Option<R.Structure>, pages: Option<seq<R.Page>>)

  /** What index() puts together. */
  predicate Indexed(d: Doc)
  {
    && d.structure.Some?
    && if d.meta.kind.Pdf? then d.pages.Some? && d.meta.count == |d.pages.value| else d.pages.None?
  }

  // ---- Answers (pageindex/retrieve.py) ------------------------------------------------------------

  /** The PDF files, by path; None for one that cannot be opened. */
  type Files = string -> Option<seq<string>>

  datatype Answer =
    | NotFound
    | Failed
    | BadPages
    | About(id: Id, name: string, description: string, kind: Kind, count: nat)
    | Outline(nodes: R.Structure)
    | Content(pages: seq<R.Page>)

  /** _count_pages: a count of 0 and an empty page list are passed over. */
  function CountPages(d: Doc, files: Files): Option<nat>
  {
    if d.meta.count != 0 then Some(d.meta.count)
    else if d.pages.Some? && d.pages.value != [] then Some(|d.pages.value|)
    else if files(d.meta.path).None? then None
    else Some(|files(d.meta.path).value|)
  }

  function GetDocument(documents: map<Id, Doc>, id: Id, files: Files): Answer
  {
    if id !in documents then NotFound
    else
      var d := documents[id];
      var count := if d.meta.kind.Pdf? then CountPages(d, files) else Some(d.meta.count);
      if count.None? then Failed else About(id, d.meta.name, d.meta.description, d.meta.kind, count.value)
  }

  function GetStructure(documents: map<Id, Doc>, id: Id): Answer
  {
    if id !in documents then NotFound
    else if documents[id].structure.None? then Outline([])
    else Outline(R.RemoveText(documents[id].structure.value))
  }

  function PdfContent(d: Doc, nums: seq<int>, files: Files): Answer
  {
    if d.pages.Some? && d.pages.value != [] then Content(R.Pick(R.PageMap(d.pages.value), nums))
    else if files(d.meta.path).None? then Failed
    else Content(R.PickFromFile(files(d.meta.path).value, nums))
  }

  function MdContent(d: Doc, nums: seq<int>): Answer
  {
    if nums == [] then Failed
    else Content(R.MdContent(if d.structure.Some? then d.structure.value else [], nums[0], nums[|nums| - 1]))
  }

  /** `nums` is what _parse_pages makes of the page string. */
  function GetContent(documents: map<Id, Doc>, id: Id, nums: Option<seq<int>>, files: Files): Answer
  {
    if id !in documents then NotFound
    else if nums.None? then BadPages
    else if documents[id].meta.kind.Pdf? then PdfContent(documents[id], nums.value, files)
    else MdContent(documents[id], nums.value)
  }

  // ---- What the answers say ---------------------------------------------------------------------------

  /** The title, the description and the kind of the document, and its count: for a PDF the stored one, or
      else that of the cached pages, or else that of the file. */
  ghost predicate ShowsDocument(documents: map<Id, Doc>, id: Id, files: Files, answer: Answer)
  {
    if id !in documents then answer.NotFound?
    else
      var d := documents[id];
      var cached, file := (if d.pages.Some? then |d.pages.value| else 0), files(d.meta.path);
      var lost := d.meta.kind.Pdf? && d.meta.count == 0 && cached == 0 && file.None?;
      && (answer.Failed? <==> lost)
      && (!lost ==>
            && answer.About? && answer.id == id && answer.name == d.meta.name
            && answer.description == d.meta.description && answer.kind == d.meta.kind
            && (d.meta.kind.Md? || d.meta.count != 0 ==> answer.count == d.meta.count)
            && (d.meta.kind.Pdf? && d.meta.count == 0 && cached > 0 ==> answer.count == cached)
            && (d.meta.kind.Pdf? && d.meta.count == 0 && cached == 0 ==> answer.count == |file.value|))
  }

  lemma DocumentShown(documents: map<Id, Doc>, id: Id, files: Files)
    ensures ShowsDocument(documents, id, files, GetDocument(documents, id, files))
  {
  }

  /** All nodes of the structure, in their places, without their texts. */
  ghost predicate ShowsStructure(documents: map<Id, Doc>, id: Id, answer: Answer)
  {
    if id !in documents then answer.NotFound?
    else answer.Outline? && R.Textless(if documents[id].structure.Some? then documents[id].structure.value
                                       else [], answer.nodes)
  }

  lemma StructureShown(documents: map<Id, Doc>, id: Id)
    ensures ShowsStructure(documents, id, GetStructure(documents, id))
  {
    if id in documents && documents[id].structure.Some? { R.RemoveTextIs(documents[id].structure.value); }
  }

  /** x is the last of the cached pages that has its number. */
  ghost predicate LastCached(pages: seq<R.Page>, x: R.Page)
  {
    exists i :: 0 <= i < |pages| && pages[i] == x && forall j | i < j < |pages| :: pages[j].page != x.page
  }

  /** Page x of the document: of its cached pages if there are any, of the file otherwise. */
  ghost predicate PageOf(d: Doc, files: Files, x: R.Page)
  {
    if d.pages.Some? && d.pages.value != [] then LastCached(d.pages.value, x)
    else files(d.meta.path).Some? && 1 <= x.page <= |files(d.meta.path).value|
         && x.content == files(d.meta.path).value[x.page - 1]
  }

  /** Exactly the pages asked for that the document has, in rising order; for Markdown the texts of the first
      nodes of the lines between the first and the last number. */
  ghost predicate ShowsContent(documents: map<Id, Doc>, id: Id, nums: Option<seq<int>>, files: Files, answer: Answer)
  {
    if id !in documents then answer.NotFound?
    else if nums.None? then answer.BadPages?
    else
      var d := documents[id];
      if d.meta.kind.Pdf? then
        if (d.pages.None? || d.pages.value == []) && files(d.meta.path).None? then answer.Failed?
        else
          && answer.Content? && R.InOrder(answer.pages)
          && forall x :: x in answer.pages <==> x.page in nums.value && PageOf(d, files, x)
      else if nums.value == [] then answer.Failed?
      else
        var nodes := Preorder(if d.structure.Some? then d.structure.value else []);
        answer.Content? && R.ShowsLines(nodes, nums.value[0], nums.value[|nums.value| - 1], answer.pages)
  }

  /** The answer for a string of page numbers, by the comma-separated pieces of the string. */
  ghost predicate ShowsPages(documents: map<Id, Doc>, id: Id, pages: string, number: string -> Option<int>,
                             files: Files, answer: Answer)
  {
    exists parts: seq<string>, nums: Option<seq<int>> ::
      Text.Pieces(parts, pages, ',') && R.PagesOf(parts, number, nums)
      && ShowsContent(documents, id, nums, files, answer)
  }

  lemma PagesShown(documents: map<Id, Doc>, id: Id, pages: string, number: string -> Option<int>, files: Files)
    ensures ShowsPages(documents, id, pages, number, files,
                       GetContent(documents, id, R.Parsed(R.Ranges(pages, number)), files))
  {
    var parts, nums := Text.Split(pages, ','), R.Parsed(R.Ranges(pages, number));
    Text.SplitIs(pages, ',');
    R.ParsedPages(parts, R.Ranges(pages, number), number);
    ContentShown(documents, id, nums, files);
  }

  lemma CachedShown(pages: seq<R.Page>, nums: seq<int>, x: R.Page)
    requires R.Ascending(nums)
    ensures x in R.Pick(R.PageMap(pages), nums) <==> x.page in nums && LastCached(pages, x)
    ensures R.InOrder(R.Pick(R.PageMap(pages), nums))
  {
    R.PickMapIs(R.PageMap(pages), nums, x);
    R.PageMapIs(pages, x.page);
  }

  lemma PdfShown(d: Doc, nums: seq<int>, files: Files, x: R.Page)
    requires R.Ascending(nums) && PdfContent(d, nums, files).Content?
    ensures x in PdfContent(d, nums, files).pages <==> x.page in nums && PageOf(d, files, x)
    ensures R.InOrder(PdfContent(d, nums, files).pages)
  {
    if d.pages.Some? && d.pages.value != [] {
      CachedShown(d.pages.value, nums, x);
    } else {
      R.PickIs(files(d.meta.path).value, nums, x);
    }
  }

  lemma ContentShown(documents: map<Id, Doc>, id: Id, nums: Option<seq<int>>, files: Files)
    requires nums.Some? ==> R.Ascending(nums.value)
    ensures ShowsContent(documents, id, nums, files, GetContent(documents, id, nums, files))
  {
    if id in documents && nums.Some? {
      var d, answer := documents[id], GetContent(documents, id, nums, files);
      if answer.Content? && d.meta.kind.Pdf? {
        PdfShown(d, nums.value, files, R.Page(0, ""));
        forall x ensures x in answer.pages <==> x.page in nums.value && PageOf(d, files, x) {
          PdfShown(d, nums.value, files, x);
        }
      } else if answer.Content? {
        var f := if d.structure.Some? then d.structure.value else [];
        R.MdContentShown(f, nums.value[0], nums.value[|nums.value| - 1]);
      }
    }
  }

  // ---- The workspace ----------------------------------------------------------------------------------

  /** Memory of the running client, and the files on disk.  `meta` is None when `_meta.json` is missing,
      unreadable or no JSON object. */
  datatype World = World(documents: map<Id, Doc>, stored: map<Id, Doc>, meta: Option<map<Id, Meta>>)

  /** The document as _save_doc writes it. */
  function ToFile(d: Doc): Doc
  {
    if d.structure.Some? && d.structure.value != [] && d.meta.kind.Pdf?
    then d.(structure := Some(R.RemoveText(d.structure.value)))
    else d
  }

  /** A document file holds what the document holds, except the texts of a PDF's nodes. */
  ghost predicate Stores(d: Doc, file: Doc)
  {
    && file.meta == d.meta && file.pages == d.pages && (file.structure.Some? <==> d.structure.Some?)
    && (d.structure.Some? ==>
          if d.meta.kind.Pdf? then R.Textless(d.structure.value, file.structure.value)
          else file.structure == d.structure)
  }

  lemma FileStores(d: Doc)
    ensures Stores(d, ToFile(d))
  {
    if d.structure.Some? { R.RemoveTextIs(d.structure.value); }
  }

  function Light(d: Doc): Doc { d.(structure := None, pages := None) }

  function RebuildMeta(stored: map<Id, Doc>): map<Id, Meta> { map id | id in stored :: stored[id].meta }

  function WriteDoc(w: World, id: Id): World
    requires id in w.documents
  {
    w.(stored := w.stored[id := ToFile(w.documents[id])])
  }

  function SaveMeta(w: World, id: Id, entry: Meta): World
  {
    var base := if w.meta.Some? && w.meta.value != map[] then w.meta.value else RebuildMeta(w.stored);
    w.(meta := Some(base[id := entry]))
  }

  function SaveDoc(w: World, id: Id): World
    requires id in w.documents
  {
    var w' := SaveMeta(WriteDoc(w, id), id, w.documents[id].meta);
    w'.(documents := w.documents[id := Light(w.documents[id])])
  }

  function Index(w: World, id: Id, d: Doc): World { SaveDoc(w.(documents := w.documents[id := d]), id) }

  /** A new client on the same workspace. */
  function Restart(w: World): World
  {
    var meta := if w.meta.Some? then w.meta.value else RebuildMeta(w.stored);
    w.(documents := map id | id in meta :: Doc(meta[id], None, None))
  }

  /** _ensure_doc_loaded */
  function EnsureLoaded(w: World, id: Id): World
  {
    if id !in w.documents || w.documents[id].structure.Some? || id !in w.stored then w
    else
      var d, full := w.documents[id], w.stored[id];
      var structure := if full.structure.Some? then full.structure else Some([]);
      var pages := if full.pages.Some? && full.pages.value != [] then full.pages else d.pages;
      w.(documents := w.documents[id := d.(structure := structure, pages := pages)])
  }

  // ---- Any history of calls, restarts and lost meta files ----------------------------------------

  datatype Op =
    | DoIndex(id: Id, doc: Doc)
    | AskDocument(id: Id)
    | AskStructure(id: Id)
    | AskContent(id: Id, nums: Option<seq<int>>)
    | DoRestart
    | LoseMeta

  function Step(w: World, op: Op): World
  {
    match op
    case DoIndex(id, d) => Index(w, id, d)
    case AskDocument(_) => w
    case AskStructure(id) => EnsureLoaded(w, id)
    case AskContent(id, _) => EnsureLoaded(w, id)
    case DoRestart => Restart(w)
    case LoseMeta => w.(meta := None)
  }

  function Reply(documents: map<Id, Doc>, op: Op, files: Files): Option<Answer>
  {
    match op
    case AskDocument(id) => Some(GetDocument(documents, id, files))
    case AskStructure(id) => Some(GetStructure(documents, id))
    case AskContent(id, nums) => Some(GetContent(documents, id, nums, files))
    case _ => None
  }

  function Replies(w: World, ops: seq<Op>, files: Files): seq<Option<Answer>>
    decreases |ops|
  {
    if ops == [] then []
    else [Reply(Step(w, ops[0]).documents, ops[0], files)] + Replies(Step(w, ops[0]), ops[1..], files)
  }

  /** The client that keeps everything in memory: nothing but index() changes it. */
  function Keep(kept: map<Id, Doc>, op: Op): map<Id, Doc> { if op.DoIndex? then kept[op.id := op.doc] else kept }

  function KeptReplies(kept: map<Id, Doc>, ops: seq<Op>, files: Files): seq<Option<Answer>>
    decreases |ops|
  {
    if ops == [] then []
    else [Reply(Keep(kept, ops[0]), ops[0], files)] + KeptReplies(Keep(kept, ops[0]), ops[1..], files)
  }

  // ---- Refinement --------------------------------------------------------------------------------------

  /** The document after it has been loaded again. */
  function Loaded(d: Doc): Doc
    requires Indexed(d)
  {
    ToFile(d).(pages := if d.pages.Some? && d.pages.value != [] then d.pages else None)
  }

  /** Memory holds every kept document, light or loaded; the files hold all of them; `_meta.json`, where
      there is one, is exactly what a rebuild from the files would give. */
  ghost predicate Refines(w: World, kept: map<Id, Doc>)
  {
    && w.documents.Keys == kept.Keys == w.stored.Keys
    && (forall id | id in kept :: Indexed(kept[id]) && w.stored[id] == ToFile(kept[id]))
    && (forall id | id in kept :: w.documents[id] == Light(kept[id]) || w.documents[id] == Loaded(kept[id]))
    && (w.meta.Some? ==> w.meta.value == RebuildMeta(w.stored))
  }

  ghost predicate WellFormed(ops: seq<Op>) { forall i | 0 <= i < |ops| && ops[i].DoIndex? :: Indexed(ops[i].doc) }

  lemma RebuildAfterWrite(stored: map<Id, Doc>, id: Id, d: Doc)
    ensures RebuildMeta(stored[id := ToFile(d)]) == RebuildMeta(stored)[id := d.meta]
  {
  }

  lemma SavedMeta(w: World, id: Id)
    requires id in w.documents && (w.meta.Some? ==> w.meta.value == RebuildMeta(w.stored))
    ensures var w' := SaveDoc(w, id);
            && w'.stored == w.stored[id := ToFile(w.documents[id])]
            && w'.documents == w.documents[id := Light(w.documents[id])]
            && w'.meta == Some(RebuildMeta(w'.stored))
  {
    var d := w.documents[id];
    RebuildAfterWrite(w.stored, id, d);
    var rebuilt := RebuildMeta(w.stored[id := ToFile(d)]);
    assert rebuilt[id := d.meta] == rebuilt;
  }

  lemma SaveRefines(w: World, kept: map<Id, Doc>, id: Id, d: Doc)
    requires Refines(w, kept) && Indexed(d)
    ensures Refines(Index(w, id, d), kept[id := d])
    ensures Index(w, id, d).meta == Some(RebuildMeta(Index(w, id, d).stored))
  {
    SavedMeta(w.(documents := w.documents[id := d]), id);
  }

  lemma RestartRefines(w: World, kept: map<Id, Doc>)
    requires Refines(w, kept)
    ensures Refines(Restart(w), kept)
  {
  }

  lemma LoadRefines(w: World, kept: map<Id, Doc>, id: Id)
    requires Refines(w, kept)
    ensures Refines(EnsureLoaded(w, id), kept)
    ensures id in kept ==> EnsureLoaded(w, id).documents[id] == Loaded(kept[id])
  {
  }

  lemma StepRefines(w: World, kept: map<Id, Doc>, op: Op)
    requires Refines(w, kept) && (op.DoIndex? ==> Indexed(op.doc))
    ensures Refines(Step(w, op), Keep(kept, op))
  {
    match op
    case DoIndex(id, d) => SaveRefines(w, kept, id, d);
    case AskStructure(id) => LoadRefines(w, kept, id);
    case AskContent(id, _) => LoadRefines(w, kept, id);
    case DoRestart => RestartRefines(w, kept);
    case _ =>
  }

  lemma SameCount(d: Doc, x: Doc, files: Files)
    requires Indexed(d) && d.meta.kind.Pdf? && (x == Light(d) || x == Loaded(d))
    ensures CountPages(x, files) == CountPages(d, files)
  {
  }

  lemma SameStructure(d: Doc)
    requires Indexed(d)
    ensures R.RemoveText(Loaded(d).structure.value) == R.RemoveText(d.structure.value)
  {
    R.RemoveTextTwice(d.structure.value);
  }

  lemma SameContent(d: Doc, nums: seq<int>, files: Files)
    requires Indexed(d)
    ensures d.meta.kind.Pdf? ==> PdfContent(Loaded(d), nums, files) == PdfContent(d, nums, files)
    ensures d.meta.kind.Md? ==> MdContent(Loaded(d), nums) == MdContent(d, nums)
  {
  }

  lemma SameInfo(w: World, kept: map<Id, Doc>, id: Id, files: Files)
    requires Refines(w, kept)
    ensures GetDocument(w.documents, id, files) == GetDocument(kept, id, files)
  {
    if id in kept && kept[id].meta.kind.Pdf? { SameCount(kept[id], w.documents[id], files); }
  }

  lemma SameOutline(w: World, kept: map<Id, Doc>, id: Id)
    requires Refines(w, kept)
    ensures GetStructure(EnsureLoaded(w, id).documents, id) == GetStructure(kept, id)
  {
    LoadRefines(w, kept, id);
    if id in kept { SameStructure(kept[id]); }
  }

  lemma SamePages(w: World, kept: map<Id, Doc>, id: Id, nums: Option<seq<int>>, files: Files)
    requires Refines(w, kept)
    ensures GetContent(EnsureLoaded(w, id).documents, id, nums, files) == GetContent(kept, id, nums, files)
  {
    LoadRefines(w, kept, id);
    if id in kept && nums.Some? { SameContent(kept[id], nums.value, files); }
  }

  lemma SameReply(w: World, kept: map<Id, Doc>, op: Op, files: Files)
    requires Refines(w, kept) && (op.DoIndex? ==> Indexed(op.doc))
    ensures Reply(Step(w, op).documents, op, files) == Reply(Keep(kept, op), op, files)
  {
    match op
    case AskDocument(id) => SameInfo(w, kept, id, files);
    case AskStructure(id) => SameOutline(w, kept, id);
    case AskContent(id, nums) => SamePages(w, kept, id, nums, files);
    case _ =>
  }

  /** After any sequence of index calls, queries, restarts and losses of `_meta.json`, every answer is
      the one of a client that kept everything. */
  lemma {:induction false} WorkspaceIsTransparent(w: World, kept: map<Id, Doc>, ops: seq<Op>, files: Files)
    requires Refines(w, kept) && WellFormed(ops)
    ensures Replies(w, ops, files) == KeptReplies(kept, ops, files)
    decreases |ops|
  {
    if ops != [] {
      SameReply(w, kept, ops[0], files);
      StepRefines(w, kept, ops[0]);
      WorkspaceIsTransparent(Step(w, ops[0]), Keep(kept, ops[0]), ops[1..], files);
    }
  }

  /** The same from an empty workspace, whether or not it holds a meta file. */
  lemma FreshWorkspace(meta: Option<map<Id, Meta>>, ops: seq<Op>, files: Files)
    requires (meta.Some? ==> meta.value == map[]) && WellFormed(ops)
    ensures Replies(World(map[], map[], meta), ops, files) == KeptReplies(map[], ops, files)
  {
    assert RebuildMeta(map[]) == map[];
    WorkspaceIsTransparent(World(map[], map[], meta), map[], ops, files);
  }

  // ---- A crash inside _save_doc -----------------------------------------------------------------------

  /** The process dies after the document file was written and before `_meta.json` was, and a new client
      starts. */
  function CrashedSave(w: World, id: Id, d: Doc): World
  {
    Restart(WriteDoc(w.(documents := w.documents[id := d]), id))
  }

  /** The new document is listed after such a crash exactly when there was no `_meta.json` to trust. */
  lemma CrashInsideSave(w: World, kept: map<Id, Doc>, id: Id, d: Doc)
    requires Refines(w, kept) && id !in kept && Indexed(d)
    ensures id in CrashedSave(w, id, d).documents <==> w.meta.None?
  {
  }

  /** The file is on disk but neither memory nor the meta file knows the document. */
  predicate Hidden(w: World, id: Id)
  {
    id in w.stored && id !in w.documents && w.meta.Some? && w.meta.value != map[] && id !in w.meta.value
  }

  lemma HiddenAfterCrash(w: World, kept: map<Id, Doc>, id: Id, d: Doc)
    requires Refines(w, kept) && id !in kept && kept != map[] && w.meta.Some?
    ensures Hidden(CrashedSave(w, id, d), id)
  {
    var other :| other in kept;
    assert other in w.meta.value;
  }

  function Run(w: World, ops: seq<Op>): World
    decreases |ops|
  {
    if ops == [] then w else Step(Run(w, ops[..|ops| - 1]), ops[|ops| - 1])
  }

  predicate MetaLost(ops: seq<Op>)
    decreases |ops|
  {
    ops != [] && (ops[|ops| - 1].LoseMeta? || MetaLost(ops[..|ops| - 1]))
  }

  /** The id is indexed again, or a client starts after a loss of the meta file. */
  predicate BroughtBack(ops: seq<Op>, id: Id)
    decreases |ops|
  {
    && ops != []
    && var last, before := ops[|ops| - 1], ops[..|ops| - 1];
       BroughtBack(before, id) || (last.DoIndex? && last.id == id) || (last.DoRestart? && MetaLost(before))
  }

  /** The file is on disk, and the meta file names the document or is missing. */
  predicate Recoverable(w: World, id: Id) { id in w.stored && (w.meta.Some? ==> id in w.meta.value) }

  lemma HiddenStep(w: World, id: Id, op: Op)
    requires Hidden(w, id) && !op.LoseMeta? && !(op.DoIndex? && op.id == id)
    ensures Hidden(Step(w, op), id)
  {
    if op.DoIndex? {
      var w' := Step(w, op);
      assert op.id in w'.meta.value;
    }
  }

  lemma RecoverableStep(w: World, id: Id, op: Op)
    requires Recoverable(w, id)
    ensures Recoverable(Step(w, op), id)
    ensures id in Step(w, op).documents <==> id in w.documents || op.DoRestart? || (op.DoIndex? && op.id == id)
  {
  }

  /** A new index call writes the file and the entry; a loss leaves the file. */
  lemma MadeRecoverable(w: World, id: Id, op: Op)
    requires Hidden(w, id) && (op.LoseMeta? || (op.DoIndex? && op.id == id))
    ensures Recoverable(Step(w, op), id) && (id in Step(w, op).documents <==> op.DoIndex?)
  {
  }

  lemma {:induction false} HiddenUntil(w: World, id: Id, ops: seq<Op>)
    requires Hidden(w, id)
    ensures var v := Run(w, ops);
            && (MetaLost(ops) || BroughtBack(ops, id) ==>
                  Recoverable(v, id) && (id in v.documents <==> BroughtBack(ops, id)))
            && (!MetaLost(ops) && !BroughtBack(ops, id) ==> Hidden(v, id))
    decreases |ops|
  {
    if ops != [] {
      var before, op := ops[..|ops| - 1], ops[|ops| - 1];
      HiddenUntil(w, id, before);
      var v := Run(w, before);
      if MetaLost(before) || BroughtBack(before, id) {
        RecoverableStep(v, id, op);
      } else if op.LoseMeta? || (op.DoIndex? && op.id == id) {
        MadeRecoverable(v, id, op);
      } else {
        HiddenStep(v, id, op);
      }
    }
  }

  /** A document whose save crashed beside a nonempty meta file is unknown after any sequence of calls,
      restarts and losses, exactly unless it is indexed again or a client starts after a loss: no save
      rebuilds a meta file that exists. */
  lemma HiddenForever(w: World, kept: map<Id, Doc>, id: Id, d: Doc, ops: seq<Op>)
    requires Refines(w, kept) && id !in kept && kept != map[] && w.meta.Some?
    ensures id in Run(CrashedSave(w, id, d), ops).documents <==> BroughtBack(ops, id)
  {
    HiddenAfterCrash(w, kept, id, d);
    HiddenUntil(CrashedSave(w, id, d), id, ops);
  }

  // ---- The client object --------------------------------------------------------------------------------

  /** The workspace directory: it outlives the clients that use it. */
  class Directory {
    var stored: map<Id, Doc>
    var meta: Option<map<Id, Meta>>
    constructor ()
      ensures stored == map[] && meta == None
    {
      stored, meta := map[], None;
    }
  }

  class PageIndexClient {
    const workspace: Directory
    var documents: map<Id, Doc>

    function View(): World
      reads this, workspace
    {
      World(documents, workspace.stored, workspace.meta)
    }

    /** A client on an existing workspace: _load_workspace. */
    constructor (workspace: Directory)
      ensures this.workspace == workspace
      ensures View() == Restart(World(map[], workspace.stored, workspace.meta))
      ensures documents.Keys == if workspace.meta.Some? then workspace.meta.value.Keys else workspace.stored.Keys
      ensures forall id | id in documents ::
                documents[id] == Doc(if workspace.meta.Some? then workspace.meta.value[id]
                                     else workspace.stored[id].meta,
                                     None, None)
    {
      this.workspace := workspace;
      documents := map[];
      new;
      var meta := workspace.meta;
      if meta.None? {
        var rebuilt := Rebuilt();
        meta := Some(rebuilt);
      }
      documents := Listed(meta.value);
    }

    static method Listed(meta: map<Id, Meta>) returns (documents: map<Id, Doc>)
      ensures documents == map id | id in meta :: Doc(meta[id], None, None)
    {
      documents := map[];
      var ids := meta.Keys;
      while ids != {}
        invariant ids <= meta.Keys
        invariant documents == map id | id in meta.Keys - ids :: Doc(meta[id], None, None)
        decreases |ids|
      {
        var id :| id in ids;
        documents := documents[id := Doc(meta[id], None, None)];
        ids := ids - {id};
      }
      assert meta.Keys - ids == meta.Keys;
    }

    /** _rebuild_meta: one entry per document file, in whatever order the directory lists them. */
    method Rebuilt() returns (meta: map<Id, Meta>)
      ensures meta == RebuildMeta(workspace.stored)
    {
      meta := map[];
      var ids := workspace.stored.Keys;
      while ids != {}
        invariant ids <= workspace.stored.Keys
        invariant meta == map id | id in workspace.stored.Keys - ids :: workspace.stored[id].meta
        decreases |ids|
      {
        var id :| id in ids;
        meta := meta[id := workspace.stored[id].meta];
        ids := ids - {id};
      }
      assert workspace.stored.Keys - ids == workspace.stored.Keys;
    }

    method WriteMeta(id: Id, entry: Meta)
      modifies workspace`meta
      ensures View() == SaveMeta(old(View()), id, entry)
    {
      var meta := map[];
      if workspace.meta.Some? { meta := workspace.meta.value; }
      if meta == map[] { meta := Rebuilt(); }
      workspace.meta := Some(meta[id := entry]);
    }

    /** index(), once the document has been built. */
    method AddDocument(id: Id, d: Doc)
      modifies this, workspace
      ensures View() == Index(old(View()), id, d)
      ensures documents == old(documents)[id := Doc(d.meta, None, None)]
      ensures id in workspace.stored && Stores(d, workspace.stored[id])
      ensures forall k | k != id :: k in workspace.stored <==> k in old(workspace.stored)
      ensures forall k | k in old(workspace.stored) && k != id :: workspace.stored[k] == old(workspace.stored)[k]
      ensures workspace.meta.Some? && id in workspace.meta.value && workspace.meta.value[id] == d.meta
      ensures var listed := old(workspace.meta);
              if listed.Some? && listed.value != map[]
              then workspace.meta.value == listed.value[id := d.meta]
              else workspace.meta.value == map k | k in workspace.stored :: workspace.stored[k].meta
    {
      FileStores(d);
      documents := documents[id := d];
      workspace.stored := workspace.stored[id := ToFile(d)];
      WriteMeta(id, d.meta);
      documents := documents[id := documents[id].(structure := None, pages := None)];
    }

    method LoadDocument(id: Id)
      modifies this
      ensures View() == EnsureLoaded(old(View()), id)
      ensures documents.Keys == old(documents.Keys) && forall k | k in documents && k != id ::
                documents[k] == old(documents[k])
      ensures id in documents ==>
                var d, was := documents[id], old(documents[id]);
                if was.structure.Some? || id !in workspace.stored then d == was
                else
                  var file := workspace.stored[id];
                  && d.meta == was.meta
                  && d.structure == Some(if file.structure.Some? then file.structure.value else [])
                  && d.pages == if file.pages.Some? && file.pages.value != [] then file.pages else was.pages
    {
      if id !in documents || documents[id].structure.Some? || id !in workspace.stored { return; }
      var doc, full := documents[id], workspace.stored[id];
      doc := doc.(structure := if full.structure.Some? then full.structure else Some([]));
      if full.pages.Some? && full.pages.value != [] { doc := doc.(pages := full.pages); }
      documents := documents[id := doc];
    }

    method DocumentInfo(id: Id, files: Files) returns (answer: Answer)
      ensures answer == GetDocument(documents, id, files) && ShowsDocument(documents, id, files, answer)
    {
      DocumentShown(documents, id, files);
      answer := GetDocument(documents, id, files);
    }

    method DocumentStructure(id: Id) returns (answer: Answer)
      modifies this
      ensures View() == Step(old(View()), AskStructure(id))
      ensures answer == GetStructure(View().documents, id) && ShowsStructure(documents, id, answer)
    {
      LoadDocument(id);
      StructureShown(documents, id);
      answer := GetStructure(documents, id);
    }

    method PageContent(id: Id, pages: string, number: string -> Option<int>, files: Files) returns (answer: Answer)
      modifies this
      ensures var nums := R.Parsed(R.Ranges(pages, number));
              View() == Step(old(View()), AskContent(id, nums))
              && answer == GetContent(View().documents, id, nums, files)
      ensures ShowsPages(documents, id, pages, number, files, answer)
    {
      LoadDocument(id);
      PagesShown(documents, id, pages, number, files);
      if id !in documents { return NotFound; }
      var nums := R.ParsePages(pages, number);
      answer := GetContent(documents, id, nums, files);
    }
  }
}
