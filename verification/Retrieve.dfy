// Page retrieval over indexed documents (pageindex/retrieve.py).
module Retrieve {
  import opened Common
  import opened Forest
  import Text

  datatype Node = Node(title: string, lineNum: Option<int>, text: Option<string>)

  type Structure = seq<Tree<Node>>

  datatype Page = Page(page: int, content: string)

  // ---- remove_fields(structure, ['text']) ----------------------------------------------------------

  function RemoveText(f: Structure): Structure
  {
    if f == [] then []
    else [Tree(f[0].root.(text := None), RemoveText(f[0].kids))] + RemoveText(f[1..])
  }

  /** g has the shape of f, and its nodes are those of f without their texts. */
  ghost predicate Textless(f: Structure, g: Structure)
  {
    && Depths(g, 0) == Depths(f, 0) && |Preorder(g)| == |Preorder(f)|
    && forall i | 0 <= i < |Preorder(f)| ::
         Preorder(g)[i].title == Preorder(f)[i].title && Preorder(g)[i].lineNum == Preorder(f)[i].lineNum
         && Preorder(g)[i].text.None?
  }

  lemma NodeParts<X>(a: seq<X>, b: seq<X>, x: X, i: nat)
    requires i < 1 + |a| + |b|
    ensures ([x] + a + b)[i] == if i == 0 then x else if i <= |a| then a[i - 1] else b[i - 1 - |a|]
  {
  }

  lemma {:induction false} NodesWithoutText(f: Structure, d: nat)
    ensures Depths(RemoveText(f), d) == Depths(f, d) && |Preorder(RemoveText(f))| == |Preorder(f)|
    ensures forall i | 0 <= i < |Preorder(f)| :: Preorder(RemoveText(f))[i] == Preorder(f)[i].(text := None)
  {
    if f != [] {
      var g := RemoveText(f);
      NodesWithoutText(f[0].kids, d + 1);
      NodesWithoutText(f[1..], d);
      assert g[0].kids == RemoveText(f[0].kids) && g[1..] == RemoveText(f[1..]);
      forall i | 0 <= i < |Preorder(f)| ensures Preorder(g)[i] == Preorder(f)[i].(text := None) {
        NodeParts(Preorder(f[0].kids), Preorder(f[1..]), f[0].root, i);
        NodeParts(Preorder(g[0].kids), Preorder(g[1..]), g[0].root, i);
      }
    }
  }

  /** Only the texts are gone: every node is there, in its place. */
  lemma RemoveTextIs(f: Structure)
    ensures Textless(f, RemoveText(f))
  {
    NodesWithoutText(f, 0);
  }

  lemma SameNodes(a: seq<Node>, b: seq<Node>)
    requires |a| == |b| && forall i | 0 <= i < |a| :: a[i] == b[i]
    ensures a == b
  {
  }

  /** And that determines the answer. */
  lemma OnlyRemoveText(f: Structure, g: Structure)
    requires Textless(f, g)
    ensures g == RemoveText(f)
  {
    NodesWithoutText(f, 0);
    SameNodes(Preorder(g), Preorder(RemoveText(f)));
    BuildOfPreorder(g, 0);
    BuildOfPreorder(RemoveText(f), 0);
  }

  lemma {:induction false} RemoveTextTwice(f: Structure)
    ensures RemoveText(RemoveText(f)) == RemoveText(f)
  {
    if f != [] {
      RemoveTextTwice(f[0].kids);
      RemoveTextTwice(f[1..]);
      var g := RemoveText(f);
      assert g[1..] == RemoveText(f[1..]);
    }
  }

  // ---- _parse_pages ----------------------------------------------------------------------------------

  /** Position of the first dash, or -1. */
  function Dash(s: string): (i: int)
    ensures -1 <= i < |s|
    ensures if i < 0 then '-' !in s else s[i] == '-' && '-' !in s[..i]
  {
    if s == "" then -1
    else if s[0] == '-' then 0
    else if Dash(s[1..]) < 0 then -1
    else 1 + Dash(s[1..])
  }

  /** The numbers one comma-separated part denotes, first and last; `number` is int(). */
  function Range(part: string, number: string -> Option<int>): Option<(int, int)>
  {
    var p := Text.Strip(part);
    if Dash(p) >= 0 then
      var lo, hi := number(Text.Strip(p[..Dash(p)])), number(Text.Strip(p[Dash(p) + 1..]));
      if lo.None? || hi.None? || lo.value > hi.value then None else Some((lo.value, hi.value))
    else
      var n := number(p);
      if n.None? then None else Some((n.value, n.value))
  }

  /** The part, without surrounding whitespace, reads as the numbers lo to hi: one number, or two on both
      sides of its first dash. */
  ghost predicate Reads(part: string, number: string -> Option<int>, lo: int, hi: int)
  {
    exists p: string :: Text.Trims(part, p) && Text.Tight(p) && TightReads(p, number, lo, hi)
  }

  ghost predicate TightReads(p: string, number: string -> Option<int>, lo: int, hi: int)
  {
    lo <= hi && if '-' in p then DashReads(p, number, lo, hi) else lo == hi && number(p) == Some(lo)
  }

  ghost predicate DashReads(p: string, number: string -> Option<int>, lo: int, hi: int)
  {
    exists i, a: string, b: string :: 0 <= i < |p| && p[i] == '-' && '-' !in p[..i]
      && Text.Trims(p[..i], a) && Text.Tight(a) && Text.Trims(p[i + 1..], b) && Text.Tight(b)
      && number(a) == Some(lo) && number(b) == Some(hi)
  }

  lemma FirstDash(p: string, i: nat)
    requires i < |p| && p[i] == '-' && '-' !in p[..i]
    ensures Dash(p) == i
  {
    var d := Dash(p);
    assert d >= 0;
    assert forall k | 0 <= k < i :: p[k] == p[..i][k];
    assert forall k | 0 <= k < d :: p[k] == p[..d][k];
  }

  lemma DashReadsIs(p: string, number: string -> Option<int>, lo: int, hi: int)
    requires Dash(p) >= 0
    ensures DashReads(p, number, lo, hi) <==>
              number(Text.Strip(p[..Dash(p)])) == Some(lo) && number(Text.Strip(p[Dash(p) + 1..])) == Some(hi)
  {
    var d := Dash(p);
    Text.StripIs(p[..d]);
    Text.StripIs(p[d + 1..]);
    if DashReads(p, number, lo, hi) {
      var i, a: string, b: string :| 0 <= i < |p| && p[i] == '-' && '-' !in p[..i]
        && Text.Trims(p[..i], a) && Text.Tight(a) && Text.Trims(p[i + 1..], b) && Text.Tight(b)
        && number(a) == Some(lo) && number(b) == Some(hi);
      FirstDash(p, i);
      Text.OnlyStrip(p[..i], a);
      Text.OnlyStrip(p[i + 1..], b);
    }
  }

  lemma ReadsIs(part: string, number: string -> Option<int>, lo: int, hi: int)
    ensures Reads(part, number, lo, hi) <==> TightReads(Text.Strip(part), number, lo, hi)
  {
    Text.StripIs(part);
    if Reads(part, number, lo, hi) {
      var p: string :| Text.Trims(part, p) && Text.Tight(p) && TightReads(p, number, lo, hi);
      Text.OnlyStrip(part, p);
    }
  }

  lemma TightRangeIs(part: string, number: string -> Option<int>, lo: int, hi: int)
    ensures Range(part, number) == Some((lo, hi)) <==> TightReads(Text.Strip(part), number, lo, hi)
  {
    var p := Text.Strip(part);
    if Dash(p) >= 0 { DashReadsIs(p, number, lo, hi); }
  }

  lemma RangeIs(part: string, number: string -> Option<int>, lo: int, hi: int)
    ensures Range(part, number) == Some((lo, hi)) <==> Reads(part, number, lo, hi)
  {
    TightRangeIs(part, number, lo, hi);
    ReadsIs(part, number, lo, hi);
  }

  predicate Ascending(s: seq<int>) { forall i, j | 0 <= i < j < |s| :: s[i] < s[j] }

  /** x put in its place, once. */
  function Insert(s: seq<int>, x: int): seq<int>
  {
    if s == [] || x < s[0] then [x] + s else if x == s[0] then s else [s[0]] + Insert(s[1..], x)
  }

  /** sorted(set(s)) */
  function SortedSet(s: seq<int>): seq<int>
  {
    if s == [] then [] else Insert(SortedSet(s[..|s| - 1]), s[|s| - 1])
  }

  lemma {:induction false} InsertKeeps(s: seq<int>, x: int)
    requires Ascending(s)
    ensures Ascending(Insert(s, x))
    ensures forall y :: y in Insert(s, x) <==> y == x || y in s
  {
    if s != [] && x > s[0] {
      InsertKeeps(s[1..], x);
      var r := Insert(s[1..], x);
      forall y ensures y in [s[0]] + r <==> y == x || y in s {
        assert y in s <==> y == s[0] || y in s[1..];
      }
      forall j | 0 <= j < |r| ensures s[0] < r[j] { assert r[j] in r; }
    }
  }

  lemma {:induction false} SortedSetIs(s: seq<int>)
    ensures Ascending(SortedSet(s))
    ensures forall y :: y in SortedSet(s) <==> y in s
  {
    if s != [] {
      var init := s[..|s| - 1];
      SortedSetIs(init);
      InsertKeeps(SortedSet(init), s[|s| - 1]);
      forall y ensures y in SortedSet(s) <==> y in s {
        assert y in s <==> y == s[|s| - 1] || y in init;
      }
    }
  }

  function UpTo(lo: int, hi: int): seq<int>
    decreases hi - lo
  {
    if lo > hi then [] else UpTo(lo, hi - 1) + [hi]
  }

  lemma {:induction false} UpToHas(lo: int, hi: int, n: int)
    ensures n in UpTo(lo, hi) <==> lo <= n <= hi
    decreases hi - lo
  {
    if lo <= hi { UpToHas(lo, hi - 1, n); }
  }

  /** All numbers of the first n ranges, or None if one of them is missing. */
  function Numbers(ranges: seq<Option<(int, int)>>, n: nat): Option<seq<int>>
    requires n <= |ranges|
  {
    if n == 0 then Some([])
    else if Numbers(ranges, n - 1).None? || ranges[n - 1].None? then None
    else Some(Numbers(ranges, n - 1).value + UpTo(ranges[n - 1].value.0, ranges[n - 1].value.1))
  }

  predicate Denotes(range: Option<(int, int)>, n: int) { range.Some? && range.value.0 <= n <= range.value.1 }

  lemma {:induction false} NumbersHas(ranges: seq<Option<(int, int)>>, m: nat, n: int)
    requires m <= |ranges|
    ensures Numbers(ranges, m).None? <==> exists i :: 0 <= i < m && ranges[i].None?
    ensures Numbers(ranges, m).Some? ==> (n in Numbers(ranges, m).value <==> exists i ::
                                            0 <= i < m && Denotes(ranges[i], n))
  {
    if m > 0 {
      NumbersHas(ranges, m - 1, n);
      if ranges[m - 1].Some? { UpToHas(ranges[m - 1].value.0, ranges[m - 1].value.1, n); }
    }
  }

  function Ranges(pages: string, number: string -> Option<int>): (r: seq<Option<(int, int)>>)
    ensures |r| == |Text.Split(pages, ',')|
  {
    var parts := Text.Split(pages, ',');
    seq(|parts|, i requires 0 <= i < |parts| => Range(parts[i], number))
  }

  function Parsed(ranges: seq<Option<(int, int)>>): Option<seq<int>>
  {
    if Numbers(ranges, |ranges|).None? then None else Some(SortedSet(Numbers(ranges, |ranges|).value))
  }

  /** The string is accepted exactly when each part is, and then stands for the ascending list of all
      numbers in its parts. */
  lemma ParsedIs(ranges: seq<Option<(int, int)>>, n: int)
    ensures Parsed(ranges).None? <==> exists i :: 0 <= i < |ranges| && ranges[i].None?
    ensures Parsed(ranges).Some? ==> Ascending(Parsed(ranges).value)
    ensures Parsed(ranges).Some? ==> (n in Parsed(ranges).value <==> exists i ::
                                        0 <= i < |ranges| && Denotes(ranges[i], n))
  {
    NumbersHas(ranges, |ranges|, n);
    var all := Numbers(ranges, |ranges|);
    if all.Some? { SortedSetIs(all.value); }
  }

  ghost predicate Readable(part: string, number: string -> Option<int>)
  {
    exists lo, hi :: Reads(part, number, lo, hi)
  }

  /** One of the parts reads as a range with n in it. */
  ghost predicate Mentioned(parts: seq<string>, number: string -> Option<int>, n: int)
  {
    exists i, lo, hi :: 0 <= i < |parts| && Reads(parts[i], number, lo, hi) && lo <= n <= hi
  }

  /** An error exactly if one of the parts cannot be read, otherwise exactly the numbers mentioned, rising. */
  ghost predicate PagesOf(parts: seq<string>, number: string -> Option<int>, result: Option<seq<int>>)
  {
    && (result.None? <==> exists i :: 0 <= i < |parts| && !Readable(parts[i], number))
    && (result.Some? ==> Ascending(result.value) && forall n :: n in result.value <==> Mentioned(parts, number, n))
  }

  lemma ReadableIs(part: string, number: string -> Option<int>)
    ensures Range(part, number).Some? <==> Readable(part, number)
  {
    var range := Range(part, number);
    if range.Some? {
      RangeIs(part, number, range.value.0, range.value.1);
    }
    if Readable(part, number) {
      var lo, hi :| Reads(part, number, lo, hi);
      RangeIs(part, number, lo, hi);
    }
  }

  lemma MentionedIs(parts: seq<string>, ranges: seq<Option<(int, int)>>, number: string -> Option<int>, n: int)
    requires |ranges| == |parts| && forall i {:trigger parts[i]} | 0 <= i < |parts| ::
               ranges[i] == Range(parts[i], number)
    ensures Mentioned(parts, number, n) <==> exists i :: 0 <= i < |ranges| && Denotes(ranges[i], n)
  {
    if Mentioned(parts, number, n) {
      var i, lo, hi :| 0 <= i < |parts| && Reads(parts[i], number, lo, hi) && lo <= n <= hi;
      RangeIs(parts[i], number, lo, hi);
      assert Denotes(ranges[i], n);
    }
    if i :| 0 <= i < |ranges| && Denotes(ranges[i], n) {
      assert ranges[i] == Range(parts[i], number);
      RangeIs(parts[i], number, ranges[i].value.0, ranges[i].value.1);
    }
  }

  lemma ParsedPages(parts: seq<string>, ranges: seq<Option<(int, int)>>, number: string -> Option<int>)
    requires |ranges| == |parts| && forall i {:trigger parts[i]} | 0 <= i < |parts| ::
               ranges[i] == Range(parts[i], number)
    ensures PagesOf(parts, number, Parsed(ranges))
  {
    ParsedIs(ranges, 0);
    forall i | 0 <= i < |parts| ensures ranges[i].Some? <==> Readable(parts[i], number) {
      ReadableIs(parts[i], number);
    }
    if Parsed(ranges).Some? {
      forall n ensures n in Parsed(ranges).value <==> Mentioned(parts, number, n) {
        ParsedIs(ranges, n);
        MentionedIs(parts, ranges, number, n);
      }
    }
  }

  method ReadPart(part: string, number: string -> Option<int>) returns (range: Option<(int, int)>)
    ensures range == Range(part, number)
  {
    var p := Text.Strip(part);
    var dash := Dash(p);
    if dash >= 0 {
      var lo, hi := number(Text.Strip(p[..dash])), number(Text.Strip(p[dash + 1..]));
      if lo.None? || hi.None? || lo.value > hi.value { return None; }
      return Some((lo.value, hi.value));
    }
    var n := number(p);
    return if n.None? then None else Some((n.value, n.value));
  }

  lemma NumbersNext(ranges: seq<Option<(int, int)>>, i: nat, numbers: seq<int>)
    requires i < |ranges| && Numbers(ranges, i) == Some(numbers)
    ensures Numbers(ranges, i + 1) ==
              if ranges[i].None? then None else Some(numbers + UpTo(ranges[i].value.0, ranges[i].value.1))
  {
  }

  /** The loop over the parts; the first part that is not accepted raises. */
  method GatherNumbers(parts: seq<string>, number: string -> Option<int>, ghost ranges: seq<Option<(int, int)>>)
      returns (all: Option<seq<int>>)
    requires |ranges| == |parts| && forall i {:trigger parts[i]} | 0 <= i < |parts| ::
               ranges[i] == Range(parts[i], number)
    ensures all == Numbers(ranges, |ranges|)
  {
    var numbers: seq<int> := [];
    for i := 0 to |parts|
      invariant Numbers(ranges, i) == Some(numbers)
    {
      var range := ReadPart(parts[i], number);
      NumbersNext(ranges, i, numbers);
      if range.None? {
        NoneStays(ranges, i + 1, |ranges|);
        return None;
      }
      numbers := numbers + UpTo(range.value.0, range.value.1);
    }
    all := Some(numbers);
  }

  method ParsePages(pages: string, number: string -> Option<int>) returns (result: Option<seq<int>>)
    ensures result == Parsed(Ranges(pages, number))
    ensures exists parts :: Text.Pieces(parts, pages, ',') && PagesOf(parts, number, result)
  {
    var parts := Text.Split(pages, ',');
    var all := GatherNumbers(parts, number, Ranges(pages, number));
    Text.SplitIs(pages, ',');
    ParsedPages(parts, Ranges(pages, number), number);
    result := if all.None? then None else Some(SortedSet(all.value));
  }

  lemma {:induction false} NoneStays(ranges: seq<Option<(int, int)>>, i: nat, n: nat)
    requires i <= n <= |ranges| && Numbers(ranges, i).None?
    ensures Numbers(ranges, n).None?
  {
    if i < n { NoneStays(ranges, i, n - 1); }
  }

  // ---- _get_pdf_page_content -----------------------------------------------------------------------

  /** The last cached content of a page number. */
  function PageMap(pages: seq<Page>): map<int, string>
  {
    if pages == [] then map[] else PageMap(pages[..|pages| - 1])[pages[|pages| - 1].page := pages[|pages| - 1].content]
  }

  /** The map knows exactly the cached page numbers, each with what the last page of that number says. */
  lemma {:induction false} PageMapIs(pages: seq<Page>, p: int)
    ensures p in PageMap(pages) <==> HasPage(pages, p)
    ensures p in PageMap(pages) ==>
              exists i :: 0 <= i < |pages| && pages[i] == Page(p, PageMap(pages)[p])
                          && forall j | i < j < |pages| :: pages[j].page != p
  {
    if pages != [] {
      var n := |pages| - 1;
      PageMapIs(pages[..n], p);
      assert forall i | 0 <= i < n :: pages[..n][i] == pages[i];
      if pages[n].page == p {
        assert pages[n] == Page(p, PageMap(pages)[p]);
      } else if p in PageMap(pages) {
        var i :| 0 <= i < n && pages[..n][i] == Page(p, PageMap(pages[..n])[p])
                 && forall j | i < j < n :: pages[..n][j].page != p;
        assert pages[i] == Page(p, PageMap(pages)[p]);
      }
    }
  }

  /** Pages as a PDF reader hands them out, numbered from 1. */
  function Numbered(texts: seq<string>): (r: seq<Page>)
    ensures |r| == |texts|
  {
    seq(|texts|, i requires 0 <= i < |texts| => Page(i + 1, texts[i]))
  }

  function Pick(pages: map<int, string>, nums: seq<int>): seq<Page>
  {
    if nums == [] then []
    else if nums[0] in pages then [Page(nums[0], pages[nums[0]])] + Pick(pages, nums[1..])
    else Pick(pages, nums[1..])
  }

  function PickFromFile(texts: seq<string>, nums: seq<int>): seq<Page>
  {
    if nums == [] then []
    else if 1 <= nums[0] <= |texts| then [Page(nums[0], texts[nums[0] - 1])] + PickFromFile(texts, nums[1..])
    else PickFromFile(texts, nums[1..])
  }

  lemma {:induction false} PageMapOfNumbered(texts: seq<string>)
    ensures forall p :: p in PageMap(Numbered(texts)) <==> 1 <= p <= |texts|
    ensures forall p | 1 <= p <= |texts| :: PageMap(Numbered(texts))[p] == texts[p - 1]
  {
    if texts != [] {
      var init := texts[..|texts| - 1];
      PageMapOfNumbered(init);
      assert Numbered(texts)[..|texts| - 1] == Numbered(init);
    }
  }

  /** The cached pages answer as the PDF itself would: the cache makes the file unnecessary. */
  lemma {:induction false} CacheIsFile(texts: seq<string>, nums: seq<int>)
    ensures Pick(PageMap(Numbered(texts)), nums) == PickFromFile(texts, nums)
  {
    PageMapOfNumbered(texts);
    if nums != [] { CacheIsFile(texts, nums[1..]); }
  }

  /** The answer lists, in the order asked for, exactly the pages the map knows. */
  lemma {:induction false} PickMapIs(pages: map<int, string>, nums: seq<int>, x: Page)
    requires Ascending(nums)
    ensures x in Pick(pages, nums) <==> x.page in nums && x.page in pages && x.content == pages[x.page]
    ensures InOrder(Pick(pages, nums))
    ensures forall i | 0 <= i < |Pick(pages, nums)| :: Pick(pages, nums)[i].page in nums
  {
    if nums != [] {
      PickMapIs(pages, nums[1..], x);
      assert x.page in nums <==> x.page == nums[0] || x.page in nums[1..];
      var later := Pick(pages, nums[1..]);
      forall i | 0 <= i < |later| ensures later[i].page > nums[0] {
        assert later[i].page in nums[1..];
      }
    }
  }

  /** From a file: exactly the pages that exist. */
  lemma PickIs(texts: seq<string>, nums: seq<int>, x: Page)
    requires Ascending(nums)
    ensures x in PickFromFile(texts, nums) <==>
              x.page in nums && 1 <= x.page <= |texts| && x.content == texts[x.page - 1]
    ensures InOrder(PickFromFile(texts, nums))
  {
    CacheIsFile(texts, nums);
    PageMapOfNumbered(texts);
    PickMapIs(PageMap(Numbered(texts)), nums, x);
  }

  // ---- _get_md_page_content ------------------------------------------------------------------------

  predicate Wanted(n: Node, lo: int, hi: int)
  {
    n.lineNum.Some? && n.lineNum.value != 0 && lo <= n.lineNum.value <= hi
  }

  function TextOf(n: Node): string { if n.text.Some? then n.text.value else "" }

  /** Nodes in document order: the first one of each wanted line. */
  function FirstOfLines(nodes: seq<Node>, lo: int, hi: int): seq<Page>
  {
    if nodes == [] then []
    else
      var before, n := FirstOfLines(nodes[..|nodes| - 1], lo, hi), nodes[|nodes| - 1];
      if Wanted(n, lo, hi) && !HasPage(before, n.lineNum.value)
      then before + [Page(n.lineNum.value, TextOf(n))]
      else before
  }

  predicate HasPage(pages: seq<Page>, page: int) { exists i :: 0 <= i < |pages| && pages[i].page == page }

  function InsertPage(s: seq<Page>, x: Page): seq<Page>
  {
    if s == [] || x.page < s[0].page then [x] + s else [s[0]] + InsertPage(s[1..], x)
  }

  /** list.sort by page: stable. */
  function SortByPage(s: seq<Page>): seq<Page>
  {
    if s == [] then [] else InsertPage(SortByPage(s[..|s| - 1]), s[|s| - 1])
  }

  /** _traverse: `results` and `seen` grow through the recursion. */
  method Traverse(nodes: Structure, lo: int, hi: int, results: seq<Page>, seen: set<int>, ghost before: seq<Node>)
      returns (results': seq<Page>, seen': set<int>)
    requires results == FirstOfLines(before, lo, hi) && forall p :: p in seen <==> HasPage(results, p)
    ensures results' == FirstOfLines(before + Preorder(nodes), lo, hi)
    ensures forall p :: p in seen' <==> HasPage(results', p)
    decreases nodes
  {
    results', seen' := results, seen;
    ghost var done := before;
    for i := 0 to |nodes|
      invariant done + Preorder(nodes[i..]) == before + Preorder(nodes)
      invariant results' == FirstOfLines(done, lo, hi) && forall p :: p in seen' <==> HasPage(results', p)
    {
      var node := nodes[i].root;
      PreorderNext(nodes, i, done);
      VisitStep(done, node, lo, hi);
      if Wanted(node, lo, hi) && node.lineNum.value !in seen' {
        HasPageAppend(results', Page(node.lineNum.value, TextOf(node)));
        seen' := seen' + {node.lineNum.value};
        results' := results' + [Page(node.lineNum.value, TextOf(node))];
      }
      done := done + [node];
      results', seen' := Traverse(nodes[i].kids, lo, hi, results', seen', done);
      done := done + Preorder(nodes[i].kids);
    }
    assert nodes[|nodes|..] == [];
    assert done + [] == done;
  }

  lemma HasPageAppend(s: seq<Page>, x: Page)
    ensures forall p :: HasPage(s + [x], p) <==> p == x.page || HasPage(s, p)
  {
    var r := s + [x];
    forall p ensures HasPage(r, p) <==> p == x.page || HasPage(s, p) {
      assert r[|s|] == x;
      if HasPage(s, p) {
        var i :| 0 <= i < |s| && s[i].page == p;
        assert r[i].page == p;
      }
    }
  }

  lemma VisitStep(done: seq<Node>, n: Node, lo: int, hi: int)
    ensures FirstOfLines(done + [n], lo, hi) ==
              var before := FirstOfLines(done, lo, hi);
              if Wanted(n, lo, hi) && !HasPage(before, n.lineNum.value)
              then before + [Page(n.lineNum.value, TextOf(n))]
              else before
  {
    assert (done + [n])[..|done|] == done;
  }

  lemma PreorderNext(nodes: Structure, i: nat, done: seq<Node>)
    requires i < |nodes|
    ensures done + Preorder(nodes[i..]) == done + [nodes[i].root] + Preorder(nodes[i].kids) + Preorder(nodes[i + 1..])
  {
    assert nodes[i..][0] == nodes[i] && nodes[i..][1..] == nodes[i + 1..];
  }

  function MdContent(nodes: Structure, lo: int, hi: int): seq<Page>
  {
    SortByPage(FirstOfLines(Preorder(nodes), lo, hi))
  }

  method GetMdPageContent(nodes: Structure, nums: seq<int>) returns (content: seq<Page>)
    requires nums != [] && Ascending(nums)
    ensures content == MdContent(nodes, nums[0], nums[|nums| - 1])
    ensures ShowsLines(Preorder(nodes), nums[0], nums[|nums| - 1], content)
  {
    MdContentShown(nodes, nums[0], nums[|nums| - 1]);
    var results, seen := Traverse(nodes, nums[0], nums[|nums| - 1], [], {}, []);
    assert [] + Preorder(nodes) == Preorder(nodes);
    content := SortByPage(results);
  }

  /** Node i is wanted and the first of its line. */
  predicate Leads(nodes: seq<Node>, i: nat, lo: int, hi: int)
    requires i < |nodes|
  {
    Wanted(nodes[i], lo, hi) && forall j | 0 <= j < i :: nodes[j].lineNum != nodes[i].lineNum
  }

  lemma {:induction false} LinesListed(nodes: seq<Node>, lo: int, hi: int, p: int)
    ensures HasPage(FirstOfLines(nodes, lo, hi), p) <==>
              exists i :: 0 <= i < |nodes| && Wanted(nodes[i], lo, hi) && nodes[i].lineNum.value == p
  {
    if nodes != [] {
      var init, n := nodes[..|nodes| - 1], nodes[|nodes| - 1];
      var before := FirstOfLines(init, lo, hi);
      LinesListed(init, lo, hi, p);
      if Wanted(n, lo, hi) {
        LinesListed(init, lo, hi, n.lineNum.value);
        HasPageAppend(before, Page(n.lineNum.value, TextOf(n)));
      }
      if i :| 0 <= i < |init| && Wanted(init[i], lo, hi) && init[i].lineNum.value == p { assert nodes[i] == init[i]; }
      if i :| 0 <= i < |nodes| && Wanted(nodes[i], lo, hi) && nodes[i].lineNum.value == p {
        if i < |init| { assert init[i] == nodes[i]; }
      }
    }
  }

  lemma LeadsInFront(nodes: seq<Node>, m: nat, i: nat, lo: int, hi: int)
    requires i < m <= |nodes|
    ensures Leads(nodes, i, lo, hi) <==> Leads(nodes[..m], i, lo, hi)
  {
    forall j: nat | j <= i ensures nodes[j] == nodes[..m][j] {}
  }

  lemma LeadsLast(nodes: seq<Node>, m: nat, lo: int, hi: int)
    requires m < |nodes|
    ensures Leads(nodes, m, lo, hi) <==>
              Wanted(nodes[m], lo, hi) && !HasPage(FirstOfLines(nodes[..m], lo, hi), nodes[m].lineNum.value)
  {
    if Wanted(nodes[m], lo, hi) { LinesListed(nodes[..m], lo, hi, nodes[m].lineNum.value); }
  }

  /** x shows one of the first n nodes, the first of its line and in the range asked for. */
  ghost predicate Leader(nodes: seq<Node>, n: nat, lo: int, hi: int, x: Page)
    requires n <= |nodes|
  {
    exists i: nat :: i < n && Leads(nodes, i, lo, hi) && x == Page(nodes[i].lineNum.value, TextOf(nodes[i]))
  }

  lemma LeaderInFront(nodes: seq<Node>, m: nat, lo: int, hi: int, x: Page)
    requires m <= |nodes|
    ensures Leader(nodes, m, lo, hi, x) <==> Leader(nodes[..m], m, lo, hi, x)
  {
    forall i: nat | i < m ensures Leads(nodes, i, lo, hi) <==> Leads(nodes[..m], i, lo, hi) {
      LeadsInFront(nodes, m, i, lo, hi);
    }
  }

  lemma LeaderNext(nodes: seq<Node>, m: nat, lo: int, hi: int, x: Page)
    requires m < |nodes|
    ensures Leader(nodes, m + 1, lo, hi, x) <==>
              Leader(nodes, m, lo, hi, x) || (Leads(nodes, m, lo, hi)
                                              && x == Page(nodes[m].lineNum.value, TextOf(nodes[m])))
  {
  }

  lemma {:induction false} LeadersListed(nodes: seq<Node>, lo: int, hi: int, x: Page)
    ensures x in FirstOfLines(nodes, lo, hi) <==> Leader(nodes, |nodes|, lo, hi, x)
  {
    if nodes != [] {
      var m := |nodes| - 1;
      LeadersListed(nodes[..m], lo, hi, x);
      LeaderInFront(nodes, m, lo, hi, x);
      LeadsLast(nodes, m, lo, hi);
      LeaderNext(nodes, m, lo, hi, x);
    }
  }

  predicate Distinct(s: seq<Page>) { forall i, j | 0 <= i < j < |s| :: s[i].page != s[j].page }

  predicate InOrder(s: seq<Page>) { forall i, j | 0 <= i < j < |s| :: s[i].page < s[j].page }

  lemma {:induction false} LinesDistinct(nodes: seq<Node>, lo: int, hi: int)
    ensures Distinct(FirstOfLines(nodes, lo, hi))
  {
    if nodes != [] { LinesDistinct(nodes[..|nodes| - 1], lo, hi); }
  }

  lemma {:induction false} InsertPageKeeps(s: seq<Page>, x: Page)
    requires InOrder(s) && !HasPage(s, x.page)
    ensures InOrder(InsertPage(s, x)) && forall y :: y in InsertPage(s, x) <==> y == x || y in s
  {
    if s != [] && x.page > s[0].page {
      var tail := s[1..];
      forall i | 0 <= i < |tail| ensures tail[i].page != x.page { assert tail[i] == s[i + 1]; }
      InsertPageKeeps(s[1..], x);
      var r := InsertPage(s[1..], x);
      forall y ensures y in [s[0]] + r <==> y == x || y in s {
        assert y in s <==> y == s[0] || y in s[1..];
      }
      forall j | 0 <= j < |r| ensures s[0].page < r[j].page { assert r[j] in r; }
    } else if s != [] {
      assert s[0].page != x.page;
    }
  }

  lemma {:induction false} SortByPageIs(s: seq<Page>)
    requires Distinct(s)
    ensures InOrder(SortByPage(s)) && forall y :: y in SortByPage(s) <==> y in s
  {
    if s != [] {
      var init, x := s[..|s| - 1], s[|s| - 1];
      SortByPageIs(init);
      var r := SortByPage(init);
      forall i | 0 <= i < |r| ensures r[i].page != x.page {
        assert r[i] in init;
        var j :| 0 <= j < |init| && init[j] == r[i];
        assert s[j].page != s[|s| - 1].page;
      }
      InsertPageKeeps(r, x);
      forall y ensures y in SortByPage(s) <==> y in s {
        assert y in s <==> y == x || y in init;
      }
    }
  }

  /** x is the text of the first node of its line, which is asked for; a line number of 0 is none. */
  ghost predicate ShowsLine(nodes: seq<Node>, lo: int, hi: int, x: Page)
  {
    exists i: nat ::
      && i < |nodes| && nodes[i].lineNum == Some(x.page) && x.page != 0 && lo <= x.page <= hi
      && x.content == (if nodes[i].text.Some? then nodes[i].text.value else "")
      && forall j | 0 <= j < i :: nodes[j].lineNum != Some(x.page)
  }

  lemma LeaderShows(nodes: seq<Node>, lo: int, hi: int, x: Page)
    ensures Leader(nodes, |nodes|, lo, hi, x) <==> ShowsLine(nodes, lo, hi, x)
  {
    if Leader(nodes, |nodes|, lo, hi, x) {
      var i: nat :| i < |nodes| && Leads(nodes, i, lo, hi) && x == Page(nodes[i].lineNum.value, TextOf(nodes[i]));
      assert nodes[i].lineNum == Some(x.page);
    }
    if ShowsLine(nodes, lo, hi, x) {
      var i: nat :| i < |nodes| && nodes[i].lineNum == Some(x.page) && x.page != 0 && lo <= x.page <= hi
                    && x.content == (if nodes[i].text.Some? then nodes[i].text.value else "")
                    && forall j | 0 <= j < i :: nodes[j].lineNum != Some(x.page);
      assert Leads(nodes, i, lo, hi);
    }
  }

  /** The answer for a Markdown document: rising line numbers, and for every wanted line the text of
      the first node of that line, in document order. */
  lemma MdContentIs(nodes: Structure, lo: int, hi: int, x: Page)
    ensures InOrder(MdContent(nodes, lo, hi))
    ensures x in MdContent(nodes, lo, hi) <==> ShowsLine(Preorder(nodes), lo, hi, x)
  {
    LeaderShows(Preorder(nodes), lo, hi, x);
    LinesDistinct(Preorder(nodes), lo, hi);
    SortByPageIs(FirstOfLines(Preorder(nodes), lo, hi));
    LeadersListed(Preorder(nodes), lo, hi, x);
    assert x in MdContent(nodes, lo, hi) <==> x in FirstOfLines(Preorder(nodes), lo, hi);
  }

  /** Exactly these texts, by rising line. */
  ghost predicate ShowsLines(nodes: seq<Node>, lo: int, hi: int, content: seq<Page>)
  {
    InOrder(content) && forall x :: x in content <==> ShowsLine(nodes, lo, hi, x)
  }

  lemma MdContentShown(nodes: Structure, lo: int, hi: int)
    ensures ShowsLines(Preorder(nodes), lo, hi, MdContent(nodes, lo, hi))
  {
    MdContentIs(nodes, lo, hi, Page(0, ""));
    forall x ensures x in MdContent(nodes, lo, hi) <==> ShowsLine(Preorder(nodes), lo, hi, x) {
      MdContentIs(nodes, lo, hi, x);
    }
  }
}
