/** The XDRA model interpreter (modelparser.py). A model document is walked
    in document order; `{xdra}` directives declare sources, set the query
    context, sort or script the matched records and print their content,
    and every other element is echoed as markup with its children
    interpreted in turn. */
module ModelParsing {
  import opened Xml
  import opened Environment
  import opened Executing
  import opened Sorting

  const ModelTag := "{xdra}model"
  const SourceTag := "{xdra}source"
  const QueryTag := "{xdra}query"
  const ActionTag := "{xdra}action"
  const GetNodeTag := "{xdra}getnode"
  const GetContentTag := "{xdra}getcontent"
  const LiteralTag := "{xdra}literal"

  /** One level of indentation: four spaces. */
  const TabSize := "    "
  const NoOutput := "No output was generated using the current model."

  // ---------------------------------------------------------------------
  // Joining output pieces
  // ---------------------------------------------------------------------

  /** `"".join(pieces)`. */
  function Concat(pieces: seq<string>): string {
    if pieces == [] then "" else Concat(pieces[..|pieces| - 1]) + pieces[|pieces| - 1]
  }

  lemma ConcatSnoc(pieces: seq<string>, s: string)
    ensures Concat(pieces + [s]) == Concat(pieces) + s
  {
    assert (pieces + [s])[..|pieces|] == pieces;
  }

  /** Joining two lists of pieces joins their joins. */
  lemma {:induction false} ConcatAppend(a: seq<string>, b: seq<string>)
    ensures Concat(a + b) == Concat(a) + Concat(b)
    decreases |b|
  {
    if b == [] {
      assert a + b == a;
    } else {
      var front := b[..|b| - 1];
      assert a + b == (a + front) + [b[|b| - 1]];
      ConcatSnoc(a + front, b[|b| - 1]);
      ConcatAppend(a, front);
    }
  }

  /** A handler's result: the joined pieces, or None when nothing was
      appended (`if datalist: ... else: return None`). */
  function Joined(pieces: seq<string>): (r: Option<string>)
    ensures r.None? <==> pieces == []
  {
    if pieces == [] then None else Some(Concat(pieces))
  }

  predicate StartsWith(s: string, prefix: string) {
    |prefix| <= |s| && s[..|prefix|] == prefix
  }

  // ---------------------------------------------------------------------
  // Markup echoed by parseXML
  // ---------------------------------------------------------------------

  /** `level - 1` copies of TabSize (`for count in range(1, level)`). */
  function Indent(level: int): string {
    if level <= 1 then "" else Indent(level - 1) + TabSize
  }

  lemma {:induction false} IndentLength(level: int)
    ensures |Indent(level)| == if level <= 1 then 0 else 4 * (level - 1)
  {
    if level > 1 {
      IndentLength(level - 1);
    }
  }

  /** ` name="value"` for every attribute, in order, unescaped. */
  function AttrsText(attrs: seq<(string, string)>): string {
    if attrs == [] then ""
    else
      var (name, value) := attrs[|attrs| - 1];
      AttrsText(attrs[..|attrs| - 1]) + " " + name + "=\"" + value + "\""
  }

  /** What parseXML writes before the element's children: a line break
      below the second level, the indentation, the tag and the attributes. */
  function OpenTag(level: int, node: Node): string {
    (if level > 1 then "\n" else "") + Indent(level) + "<" + node.tag + AttrsText(node.attrs)
  }

  /** What parseXML writes after the children of a non-empty element. */
  function CloseTag(level: int, node: Node): string {
    "\n" + Indent(level) + "</" + node.tag + ">"
  }

  // ---------------------------------------------------------------------
  // xdra:literal
  // ---------------------------------------------------------------------

  /** The serialised form of every node, in order. */
  function Tostrings(host: Host, ns: seq<Node>): seq<string> {
    seq(|ns|, i requires 0 <= i < |ns| => host.tostring(ns[i]))
  }

  /** The literal's own text, when it has any, then every child serialised. */
  function LiteralText(host: Host, node: Node): string {
    Concat((if Truthy(node.text) then [node.text.value] else []) + Tostrings(host, node.children))
  }

  /** The literal text is the node's text followed by its serialised
      children in document order. */
  lemma LiteralTextSplit(host: Host, node: Node)
    ensures LiteralText(host, node)
         == (if Truthy(node.text) then node.text.value else "") + Concat(Tostrings(host, node.children))
  {
    var head: seq<string> := if Truthy(node.text) then [node.text.value] else [];
    ConcatAppend(head, Tostrings(host, node.children));
    if Truthy(node.text) {
      assert Concat(head) == Concat([]) + node.text.value;
    }
  }

  /** Every child of `n` is a literal. */
  predicate AllLiterals(n: Node) {
    forall i :: 0 <= i < |n.children| ==> n.children[i].tag == LiteralTag
  }

  /** What a query or an action appends for a run of literal children: the
      text of each literal that prints something, in order. */
  function LiteralPieces(host: Host, ns: seq<Node>): seq<string> {
    if ns == [] then []
    else
      var text := LiteralText(host, ns[|ns| - 1]);
      LiteralPieces(host, ns[..|ns| - 1]) + (if text != "" then [text] else [])
  }

  lemma LiteralPiecesSnoc(host: Host, ns: seq<Node>, i: int)
    requires 0 <= i < |ns|
    ensures var text := LiteralText(host, ns[i]);
      LiteralPieces(host, ns[..i + 1]) == LiteralPieces(host, ns[..i]) + (if text != "" then [text] else [])
  {
    assert ns[..i + 1][..i] == ns[..i];
  }

  // ---------------------------------------------------------------------
  // xdra:query
  // ---------------------------------------------------------------------

  /** The stored query path: the `path` attribute with one trailing "/"
      removed; a missing or empty attribute is stored as it is. */
  function QueryPath(p: Option<string>): (r: Option<string>)
    ensures !Truthy(p) ==> r == p
    ensures Truthy(p) && EndsWith(p.value, "/") ==> r.Some? && r.value + "/" == p.value
    ensures Truthy(p) && !EndsWith(p.value, "/") ==> r == p
  {
    if Truthy(p) && EndsWith(p.value, "/") then
      var s := p.value;
      assert s == s[..|s| - 1] + "/";
      Some(s[..|s| - 1])
    else p
  }

  /** Exactly one trailing "/" is removed. */
  lemma QueryPathStripsOne(s: string)
    ensures QueryPath(Some(s + "/")) == Some(s)
  {
    assert EndsWith(s + "/", "/");
    assert (s + "/")[..|s|] == s;
  }

  /** No element of the subtree is a query. */
  predicate QueryFree(n: Node)
    decreases n, 1
  {
    n.tag != QueryTag && QueryFreeBelow(n)
  }

  /** No element strictly below `n` is a query. */
  predicate QueryFreeBelow(n: Node)
    decreases n, 0
  {
    forall i :: 0 <= i < |n.children| ==> QueryFree(n.children[i])
  }

  /** No element of the subtree is a source or an action, the two
      directives that hand a script to the executor. */
  predicate ScriptFree(n: Node)
    decreases n, 1
  {
    n.tag != SourceTag && n.tag != ActionTag && ScriptFreeBelow(n)
  }

  /** No element strictly below `n` is a source or an action. */
  predicate ScriptFreeBelow(n: Node)
    decreases n, 0
  {
    forall i :: 0 <= i < |n.children| ==> ScriptFree(n.children[i])
  }

  predicate HasSourceChild(n: Node) {
    exists i :: 0 <= i < |n.children| && n.children[i].tag == SourceTag
  }

  // ---------------------------------------------------------------------
  // xdra:getnode: gathering and arranging records
  // ---------------------------------------------------------------------

  /** `findall(path)` over every source, concatenated in list order. */
  function Records(sources: seq<Node>, path: string): seq<Node> {
    if sources == [] then []
    else Records(sources[..|sources| - 1], path) + FindAll(sources[|sources| - 1], path)
  }

  lemma RecordsSnoc(sources: seq<Node>, i: int, path: string)
    requires 0 <= i < |sources|
    ensures Records(sources[..i + 1], path) == Records(sources[..i], path) + FindAll(sources[i], path)
  {
    assert sources[..i + 1][..i] == sources[..i];
    assert sources[..i + 1][i] == sources[i];
  }

  /** The records of two source lists are the records of the first, then
      those of the second. */
  lemma {:induction false} RecordsAppend(a: seq<Node>, b: seq<Node>, path: string)
    ensures Records(a + b, path) == Records(a, path) + Records(b, path)
    decreases |b|
  {
    if b == [] {
      assert a + b == a;
    } else {
      var front, last := b[..|b| - 1], b[|b| - 1];
      assert (a + b)[..|a + b| - 1] == a + front && (a + b)[|a + b| - 1] == last;
      calc {
        Records(a + b, path);
        Records(a + front, path) + FindAll(last, path);
        { RecordsAppend(a, front, path); }
        Records(a, path) + Records(front, path) + FindAll(last, path);
      }
    }
  }

  /** A record is gathered exactly when some source finds it. */
  lemma {:induction false} RecordsMembership(sources: seq<Node>, path: string, x: Node)
    ensures x in Records(sources, path) <==> exists i :: 0 <= i < |sources| && x in FindAll(sources[i], path)
    decreases |sources|
  {
    if sources != [] {
      var front, last := sources[..|sources| - 1], sources[|sources| - 1];
      var found := FindAll(last, path);
      assert Records(sources, path) == Records(front, path) + found;
      RecordsMembership(front, path, x);
      if x in Records(front, path) {
        var i :| 0 <= i < |front| && x in FindAll(front[i], path);
        assert sources[i] == front[i];
      } else if x in found {
        assert sources[|sources| - 1] == last;
      } else {
        forall i | 0 <= i < |sources| ensures x !in FindAll(sources[i], path) {
          if i < |front| {
            assert front[i] == sources[i];
          }
        }
      }
    }
  }

  /** The record list of a getnode; `findall(None)` raises unless there is
      no source to call it on. */
  function Gather(sources: seq<Node>, path: Option<string>): Outcome<seq<Node>> {
    if path.None? then (if sources == [] then Done([]) else Crash(PathMissing))
    else Done(Records(sources, path.value))
  }

  /** The getnode's own `path`, or the query path when it has none. */
  function GetNodePath(node: Node, querypath: Option<string>): Option<string> {
    if Truthy(Attr(node, "path")) then Attr(node, "path") else querypath
  }

  /** The records sorted by `key`; a list of two or more needs a key in every
      record. */
  function SortedBy(recs: seq<Node>, key: string, reverse: bool): Outcome<seq<Node>> {
    if |recs| > 1 && exists i :: 0 <= i < |recs| && !HasKey(recs[i], key) then Crash(MissingSortKey)
    else Done(StableSort(recs, KeyFn(key), reverse))
  }

  /** The reordering an action type asks of the records before they are
      printed. `custom` is handled by the interpreter itself. */
  function Arrange(debug: bool, atype: Option<string>, skey: Option<string>, recs: seq<Node>): Outcome<seq<Node>> {
    if Truthy(atype) && EndsWith(atype.value, "sort") && Truthy(skey) then
      if atype.value == "reversesort" then SortedBy(recs, skey.value, true)
      else if atype.value == "sort" then SortedBy(recs, skey.value, false)
      else if debug then Crash(ActionTypeUndefined)
      else Done(recs)
    else Done(recs)
  }

  /** The records a getnode works on, before a custom action runs. */
  function Selected(debug: bool, sources: seq<Node>, path: Option<string>,
                    atype: Option<string>, skey: Option<string>): Outcome<seq<Node>> {
    match Gather(sources, path)
    case Crash(e) => Crash(e)
    case Done(recs) => Arrange(debug, atype, skey, recs)
  }

  /** The two sort types select the sort direction. */
  lemma ArrangeIsSortedBy(debug: bool, recs: seq<Node>, key: string, reverse: bool)
    requires key != ""
    ensures Arrange(debug, Some(if reverse then "reversesort" else "sort"), Some(key), recs)
         == SortedBy(recs, key, reverse)
  {
    var atype := if reverse then "reversesort" else "sort";
    assert atype[|atype| - 4..] == "sort";
    assert reverse ==> atype != "sort";
  }

  /** `sort` and `reversesort` with a key give a permutation of the records
      in which no record goes before an earlier one. */
  lemma ArrangeSorts(debug: bool, recs: seq<Node>, key: string, reverse: bool)
    requires key != ""
    requires forall i :: 0 <= i < |recs| ==> HasKey(recs[i], key)
    ensures var r := Arrange(debug, Some(if reverse then "reversesort" else "sort"), Some(key), recs);
      && r.Done?
      && multiset(r.value) == multiset(recs)
      && Ordered(r.value, KeyFn(key), reverse)
  {
    ArrangeIsSortedBy(debug, recs, key, reverse);
    StableSortPermutes(recs, KeyFn(key), reverse);
    StableSortOrdered(recs, KeyFn(key), reverse);
  }

  /** Sorting two or more records of which one has no key fails. */
  lemma ArrangeMissingKey(debug: bool, recs: seq<Node>, key: string, reverse: bool, i: int)
    requires key != "" && |recs| > 1 && 0 <= i < |recs| && !HasKey(recs[i], key)
    ensures Arrange(debug, Some(if reverse then "reversesort" else "sort"), Some(key), recs) == Crash(MissingSortKey)
  {
    ArrangeIsSortedBy(debug, recs, key, reverse);
  }

  /** Without a sort type and a key the records keep their order. */
  lemma ArrangeKeepsOrder(debug: bool, atype: Option<string>, skey: Option<string>, recs: seq<Node>)
    requires !Truthy(skey) || !Truthy(atype) || !EndsWith(atype.value, "sort")
    ensures Arrange(debug, atype, skey, recs) == Done(recs)
  {
  }

  /** What a getnode without children prints for each record: the record
      serialised, when it is truthy. */
  function EchoPieces(host: Host, items: seq<Node>): (r: seq<string>)
    ensures |r| <= |items|
  {
    if items == [] then []
    else
      var last := items[|items| - 1];
      EchoPieces(host, items[..|items| - 1]) + (if host.truthy(last) then [host.tostring(last)] else [])
  }

  /** Every record is echoed when every record is truthy. */
  lemma {:induction false} EchoAll(host: Host, items: seq<Node>)
    requires forall i :: 0 <= i < |items| ==> host.truthy(items[i])
    ensures EchoPieces(host, items) == Tostrings(host, items)
  {
    if items != [] {
      var front := items[..|items| - 1];
      EchoAll(host, front);
      assert Tostrings(host, items) == Tostrings(host, front) + [host.tostring(items[|items| - 1])];
    }
  }

  // ---------------------------------------------------------------------
  // xdra:source
  // ---------------------------------------------------------------------

  /** The `getDocObj(path, rootname, recursive, url)` call a `files` or `url`
      source makes, if it makes one. */
  function LoadRequest(node: Node): Option<(Option<string>, Option<string>, bool, bool)> {
    var stype := Attr(node, "type");
    if stype == Some("files") then
      var path, name := Attr(node, "path"), Attr(node, "name");
      if Truthy(path) && Truthy(name) then
        var recursive := Attr(node, "recursive") == Some("1") || Attr(node, "recursive") == Some("yes");
        Some((path, name, recursive, false))
      else None
    else if stype == Some("url") then Some((Attr(node, "path"), Attr(node, "name"), false, true))
    else None
  }

  /** The tag of the tree a custom source script starts from. */
  function SourceName(node: Node): string {
    Attr(node, "name").GetOr("")
  }

  // ---------------------------------------------------------------------
  // The interpreter
  // ---------------------------------------------------------------------

  class ModelParser {
    var globalsources: seq<Node>
    var localsources: seq<Node>
    /** The path of the innermost query; None when it had no path attribute. */
    var querypath: Option<string>
    var level: int
    /** The current action type and sort key. */
    var atype: Option<string>
    var skey: Option<string>
    const runner: Executor
    const host: Host
    /** How many more nested models loaded by path may be opened, standing for
        the interpreter's recursion limit. */
    const depth: nat

    /** `ModelParser(globalsources, localsources)`: the lists passed in are
        stored and then thrown away by the reset that follows. */
    constructor(globalsources: seq<Node>, localsources: seq<Node>, host: Host, depth: nat)
      ensures this.globalsources == [] && this.localsources == []
      ensures querypath == Some("") && level == 0 && atype == Some("") && skey == Some("")
      ensures this.host == host && this.depth == depth
      ensures fresh(runner) && fresh(runner.execCache) && runner.host == host
      ensures runner.code == None && runner.key == null && runner.tree == None
    {
      this.globalsources := globalsources;
      this.localsources := localsources;
      this.host := host;
      this.depth := depth;
      runner := new Executor(None, None, None, host);
      new;
      Reset(false);
    }

    /** `reset(keepsources)`: back to the initial context, keeping the source
        lists only when asked to. */
    method Reset(keepsources: bool)
      modifies this
      ensures keepsources ==> globalsources == old(globalsources) && localsources == old(localsources)
      ensures !keepsources ==> globalsources == [] && localsources == []
      ensures querypath == Some("") && level == 0 && atype == Some("") && skey == Some("")
    {
      if !keepsources {
        globalsources := [];
        localsources := [];
      }
      querypath := Some("");
      level := 0;
      atype := Some("");
      skey := Some("");
    }

    /** The indentation parseXML writes at the current level. */
    method Indentation() returns (s: string)
      ensures s == Indent(level)
    {
      s := "";
      var count := 1;
      while count < level
        invariant 1 <= count && (count == 1 || count <= level)
        invariant s == Indent(count)
      {
        s := s + TabSize;
        count := count + 1;
      }
    }

    /** The attributes of `node` as parseXML writes them. */
    method AttributeText(node: Node) returns (s: string)
      ensures s == AttrsText(node.attrs)
    {
      s := "";
      var i := 0;
      while i < |node.attrs|
        invariant 0 <= i <= |node.attrs|
        invariant s == AttrsText(node.attrs[..i])
      {
        assert node.attrs[..i + 1][..i] == node.attrs[..i];
        var (name, value) := node.attrs[i];
        s := s + " " + name + "=\"" + value + "\"";
        i := i + 1;
      }
      assert node.attrs[..i] == node.attrs;
    }

    /** `parseGetContent(node, source)`: the text at the `path` attribute of
        the current record. */
    function ParseGetContent(node: Node, source: Option<Node>): (r: Outcome<Option<string>>)
      ensures !Truthy(Attr(node, "path")) ==> r == Done(None)
      ensures Truthy(Attr(node, "path")) && source.None? ==> r == Crash(NoRecord)
      ensures Truthy(Attr(node, "path")) && source.Some? ==>
        r.Done? && (r.value.Some? <==> FindAll(source.value, Attr(node, "path").value) != [])
      ensures r.Done? && r.value.Some? ==>
        && source.Some?
        && FindAll(source.value, Attr(node, "path").value) != []
        && r.value.value == FindAll(source.value, Attr(node, "path").value)[0].text.GetOr("")
    {
      var path := Attr(node, "path");
      if !Truthy(path) then Done(None)
      else if source.None? then Crash(NoRecord)
      else Done(FindText(source.value, path.value))
    }

    /** A `./tag` getcontent prints the text of the record's first child
        with that tag. */
    lemma GetContentChild(node: Node, item: Node, t: string)
      requires PlainTag(t) && Attr(node, "path") == Some("./" + t)
      ensures var m := Tagged(item.children, t);
        ParseGetContent(node, Some(item)) == Done(if m == [] then None else Some(m[0].text.GetOr("")))
    {
      FindAllChildren(item, t);
    }

    /** `parseLiteral(node)`. */
    method ParseLiteral(node: Node) returns (r: string)
      ensures r == LiteralText(host, node)
    {
      var pieces: seq<string> := [];
      if Truthy(node.text) {
        pieces := [node.text.value];
      }
      ghost var head := pieces;
      var i := 0;
      while i < |node.children|
        invariant 0 <= i <= |node.children|
        invariant pieces == head + Tostrings(host, node.children[..i])
      {
        assert Tostrings(host, node.children[..i + 1])
            == Tostrings(host, node.children[..i]) + [host.tostring(node.children[i])];
        pieces := pieces + [host.tostring(node.children[i])];
        i := i + 1;
      }
      assert node.children[..i] == node.children;
      r := Concat(pieces);
    }

    /** The first loop of parseGetNode: every source's matches, in order. */
    method GatherRecords(path: Option<string>) returns (r: Outcome<seq<Node>>)
      ensures r == Gather(globalsources, path)
    {
      var items: seq<Node> := [];
      var i := 0;
      while i < |globalsources|
        invariant 0 <= i <= |globalsources|
        invariant path.None? ==> items == [] && i == 0
        invariant path.Some? ==> items == Records(globalsources[..i], path.value)
      {
        if path.None? {
          return Crash(PathMissing);
        }
        RecordsSnoc(globalsources, i, path.value);
        items := items + FindAll(globalsources[i], path.value);
        i := i + 1;
      }
      assert globalsources[..i] == globalsources;
      return Done(items);
    }

    /** The sort step of parseGetNode, on a copy of the record list. */
    method ArrangeRecords(recs: seq<Node>) returns (r: Outcome<seq<Node>>)
      ensures r == Arrange(host.debug, atype, skey, recs)
    {
      if Truthy(atype) && EndsWith(atype.value, "sort") && Truthy(skey) {
        if atype.value == "reversesort" || atype.value == "sort" {
          var reverse := atype.value == "reversesort";
          if |recs| > 1 && exists i :: 0 <= i < |recs| && !HasKey(recs[i], skey.value) {
            return Crash(MissingSortKey);
          }
          var a := new Node[|recs|](i requires 0 <= i < |recs| => recs[i]);
          assert a[..] == recs;
          var sorted := Sort(a, skey.value, reverse);
          return Done(sorted[..]);
        } else if host.debug {
          return Crash(ActionTypeUndefined);
        }
      }
      return Done(recs);
    }

    /** A nested `{xdra}model`: loaded from its `path`, or, without a path,
        the element itself when `evaluatePathless`. It runs in a new parser
        and any exception it raises is swallowed. */
    method NestedModel(child: Node, evaluatePathless: bool) returns (data: Option<string>)
      decreases depth, child, 1
      ensures var path := Attr(child, "path");
        Truthy(path) && (depth == 0 || host.parseFile(path.value).None?) ==> data == None
      ensures !Truthy(Attr(child, "path")) && !evaluatePathless ==> data == None
      ensures var path := Attr(child, "path");
        Truthy(path) && depth > 0 && host.parseFile(path.value).Some? ==>
          var root := host.parseFile(path.value).value;
          && (root.tag != ModelTag ==> data == None)
          && (root.tag == ModelTag && root.children == [] ==>
                data == Some(if Truthy(root.tail) then root.tail.value else NoOutput))
      ensures data.Some? ==> data.value != ""
      ensures && child.tag == ModelTag && child.children == []
              && !Truthy(Attr(child, "path")) && evaluatePathless ==>
        data == Some(if Truthy(child.tail) then child.tail.value else NoOutput)
    {
      var path := Attr(child, "path");
      if Truthy(path) {
        var loaded := host.parseFile(path.value);
        if loaded.None? || depth == 0 {
          return None;
        }
        var parser := new ModelParser(globalsources, localsources, host, depth - 1);
        var out := parser.ParseModel(loaded.value);
        data := if out.Done? then out.value else None;
      } else if evaluatePathless {
        var parser := new ModelParser(globalsources, localsources, host, depth);
        var out := parser.ParseModel(child);
        data := if out.Done? then out.value else None;
      } else {
        data := None;
      }
    }

    /** `parseXML(node, item)`: the element echoed as markup, its children
        interpreted in order. */
    method ParseXml(node: Node, item: Option<Node>) returns (r: Outcome<string>)
      modifies this, runner, runner.execCache
      decreases depth, node, 0
      ensures node.children == [] ==>
        r == Done(OpenTag(old(level), node) + " />") && unchanged(this, runner, runner.execCache)
      ensures r.Done? ==> level == old(level) && StartsWith(r.value, OpenTag(old(level), node))
      ensures r.Done? && node.children != [] ==> EndsWith(r.value, CloseTag(old(level), node))
      ensures QueryFreeBelow(node) ==> querypath == old(querypath)
      ensures ScriptFreeBelow(node) ==> runner.Script() == old(runner.Script())
      ensures old(localsources) == [] ==> localsources == []
    {
      var indent := Indentation();
      var attrs := AttributeText(node);
      var open := (if level > 1 then "\n" else "") + indent + "<" + node.tag + attrs;
      if node.children == [] {
        return Done(open + " />");
      }
      var pieces := [open + ">"];
      assert StartsWith(Concat(pieces), open) by {
        assert pieces == [] + [open + ">"];
        ConcatSnoc([], open + ">");
      }
      var i := 0;
      while i < |node.children|
        invariant 0 <= i <= |node.children|
        invariant level == old(level)
        invariant StartsWith(Concat(pieces), open)
        invariant QueryFreeBelow(node) ==> querypath == old(querypath)
        invariant ScriptFreeBelow(node) ==> runner.Script() == old(runner.Script())
        invariant old(localsources) == [] ==> localsources == []
      {
        var child := node.children[i];
        if QueryFreeBelow(node) {
          assert QueryFree(child);
        }
        if ScriptFreeBelow(node) {
          assert ScriptFree(child);
        }
        var more :- XmlChild(child, item);
        ConcatAppend(pieces, more);
        pieces := pieces + more;
        i := i + 1;
      }
      indent := Indentation();
      var close := "\n" + indent + "</" + node.tag + ">";
      ConcatSnoc(pieces, close);
      pieces := pieces + [close];
      r := Done(Concat(pieces));
    }

    /** The pieces parseXML appends for one child: the child interpreted by
        its directive, a non-empty result preceded by a line break for a
        getnode, a getcontent or a nested model. */
    method XmlChild(child: Node, item: Option<Node>) returns (r: Outcome<seq<string>>)
      modifies this, runner, runner.execCache
      decreases depth, child, 2
      ensures r.Done? ==> level == old(level)
      ensures QueryFree(child) ==> querypath == old(querypath)
      ensures ScriptFree(child) ==> runner.Script() == old(runner.Script())
      ensures old(localsources) == [] ==> localsources == []
      ensures child.tag == ModelTag && !Truthy(Attr(child, "path")) && child.children == [] ==> r == Done([])
    {
      var data := "";
      var pieces: seq<string> := [];
      if child.tag == SourceTag {
        var loaded :- ParseSource(child, false);
      } else if child.tag == QueryTag {
        var d :- ParseQuery(child);
        data := d.GetOr("");
      } else if child.tag == LiteralTag {
        data := ParseLiteral(child);
      } else if child.tag == ActionTag {
        var d :- ParseAction(child);
        data := d.GetOr("");
      } else if child.tag == GetNodeTag {
        var d :- ParseGetNode(child);
        data := d.GetOr("");
        if data != "" {
          pieces := pieces + ["\n"];
        }
      } else if child.tag == GetContentTag {
        var d :- ParseGetContent(child, item);
        data := d.GetOr("");
        if data != "" {
          pieces := pieces + ["\n"];
        }
      } else if child.tag == ModelTag {
        var d := NestedModel(child, child.children != []);
        data := d.GetOr("");
        if data != "" {
          pieces := pieces + ["\n"];
        }
      } else {
        data :- ParseXml(child, item);
      }
      if data != "" {
        pieces := pieces + [data];
      }
      return Done(pieces);
    }

    /** The serialised form of every truthy record, for a getnode without
        children. */
    method Echo(items: seq<Node>) returns (pieces: seq<string>)
      ensures pieces == EchoPieces(host, items)
    {
      pieces := [];
      var i := 0;
      while i < |items|
        invariant 0 <= i <= |items|
        invariant pieces == EchoPieces(host, items[..i])
      {
        assert items[..i + 1][..i] == items[..i];
        if host.truthy(items[i]) {
          pieces := pieces + [host.tostring(items[i])];
        }
        i := i + 1;
      }
      assert items[..i] == items;
    }

    /** Every truthy record run through every child of a getnode: a
        getcontent prints the record's text at its path, a literal its
        contents, any other child is echoed one level deeper. */
    method EachRecord(node: Node, items: seq<Node>) returns (r: Outcome<seq<string>>)
      modifies this, runner, runner.execCache
      decreases depth, node, 0
      ensures r.Done? ==> level == old(level)
      ensures QueryFreeBelow(node) ==> querypath == old(querypath)
      ensures ScriptFreeBelow(node) ==> runner.Script() == old(runner.Script())
      ensures old(localsources) == [] ==> localsources == []
      ensures r.Done? ==> forall k :: 0 <= k < |r.value| ==> r.value[k] != ""
    {
      var pieces: seq<string> := [];
      var i := 0;
      while i < |items|
        invariant 0 <= i <= |items|
        invariant level == old(level)
        invariant QueryFreeBelow(node) ==> querypath == old(querypath)
        invariant ScriptFreeBelow(node) ==> runner.Script() == old(runner.Script())
        invariant old(localsources) == [] ==> localsources == []
        invariant forall k :: 0 <= k < |pieces| ==> pieces[k] != ""
      {
        var item := items[i];
        var k := 0;
        while k < |node.children|
          invariant 0 <= k <= |node.children|
          invariant level == old(level)
          invariant QueryFreeBelow(node) ==> querypath == old(querypath)
          invariant ScriptFreeBelow(node) ==> runner.Script() == old(runner.Script())
          invariant old(localsources) == [] ==> localsources == []
          invariant forall k :: 0 <= k < |pieces| ==> pieces[k] != ""
        {
          var child := node.children[k];
          if QueryFreeBelow(node) {
            assert QueryFree(child);
          }
          if ScriptFreeBelow(node) {
            assert ScriptFree(child);
          }
          if child.tag == GetContentTag {
            if host.truthy(item) {
              var data :- ParseGetContent(child, Some(item));
              if Truthy(data) {
                pieces := pieces + [data.value];
              }
            }
          } else if child.tag == LiteralTag {
            if host.truthy(item) {
              var data := ParseLiteral(child);
              if data != "" {
                pieces := pieces + [data];
              }
            }
          } else if host.truthy(item) {
            level := level + 1;
            var data :- ParseXml(child, Some(item));
            level := level - 1;
            if data != "" {
              pieces := pieces + [data];
            }
          }
          k := k + 1;
        }
        i := i + 1;
      }
      return Done(pieces);
    }

    /** `parseGetNode(node)`: gather the records at the getnode's path, sort
        or script them as the current action says, then print each record
        through the getnode's children, or serialise it when there are none. */
    method ParseGetNode(node: Node) returns (r: Outcome<Option<string>>)
      modifies this, runner, runner.execCache
      decreases depth, node, 1
      ensures r.Done? ==> level == old(level)
      ensures QueryFreeBelow(node) ==> querypath == old(querypath)
      ensures ScriptFreeBelow(node) ==> runner.Script() == old(runner.Script())
      ensures old(localsources) == [] ==> localsources == []
      ensures node.children == [] ==>
        && globalsources == old(globalsources) && localsources == old(localsources)
        && querypath == old(querypath) && level == old(level)
        && atype == old(atype) && skey == old(skey)
      ensures node.children == [] && old(atype) != Some("custom") ==>
        var sel := Selected(host.debug, old(globalsources), GetNodePath(node, old(querypath)), old(atype), old(skey));
        && (sel.Crash? ==> r == Crash(sel.error))
        && (sel.Done? ==> r == Done(Joined(EchoPieces(host, sel.value))))
    {
      var path := Attr(node, "path");
      if !Truthy(path) {
        path := querypath;
      }
      var gathered :- GatherRecords(path);
      var items :- ArrangeRecords(gathered);
      var pieces: seq<string> := [];
      if atype == Some("custom") {
        runner.SetTree(Some(Element("root", items)));
        var text :- runner.RunAction();
        pieces := pieces + [text];
        items := runner.tree.value.children;
      }
      if node.children != [] {
        var printed :- EachRecord(node, items);
        pieces := pieces + printed;
      } else {
        var echoed := Echo(items);
        if atype != Some("custom") {
          assert items == Selected(host.debug, old(globalsources), GetNodePath(node, old(querypath)), old(atype), old(skey)).value;
          assert pieces + echoed == echoed;
        }
        pieces := pieces + echoed;
      }
      return Done(Joined(pieces));
    }

    /** `parseAction(node)`: set the action type and sort key (and, for a
        custom action, the script) for the getnodes inside, interpret the
        children, then clear the type and key. */
    method ParseAction(node: Node) returns (r: Outcome<Option<string>>)
      modifies this, runner, runner.execCache
      decreases depth, node, 0
      ensures r.Done? ==> level == old(level) && atype == Some("") && skey == Some("")
      ensures QueryFreeBelow(node) ==> querypath == old(querypath)
      ensures old(localsources) == [] ==> localsources == []
      ensures node.children == [] ==> r == Done(None)
      ensures ScriptFreeBelow(node) && Attr(node, "type") == Some("custom") ==>
        && runner.name == Attr(node, "name")
        && (Truthy(node.text) ==> runner.code == Some(Normalize(node.text.value)) && fresh(runner.key))
        && (!Truthy(node.text) ==> runner.code == old(runner.code) && runner.key == old(runner.key))
      ensures ScriptFreeBelow(node) && Attr(node, "type") != Some("custom") ==>
        runner.Script() == old(runner.Script())
      ensures node.children == [] && Attr(node, "type") != Some("custom") ==> unchanged(runner)
      ensures AllLiterals(node) ==> r == Done(Joined(LiteralPieces(host, node.children)))
    {
      atype := Attr(node, "type");
      skey := Attr(node, "key");
      if atype == Some("custom") {
        runner.SetName(Attr(node, "name"));
        runner.SetCode(node.text);
      }
      ghost var name0, code0, key0 := runner.name, runner.code, runner.key;
      var pieces: seq<string> := [];
      var i := 0;
      while i < |node.children|
        invariant 0 <= i <= |node.children|
        invariant level == old(level)
        invariant QueryFreeBelow(node) ==> querypath == old(querypath)
        invariant old(localsources) == [] ==> localsources == []
        invariant i == 0 ==> pieces == []
        invariant ScriptFreeBelow(node) ==> runner.Script() == (name0, code0, key0)
        invariant i == 0 && Attr(node, "type") != Some("custom") ==> unchanged(runner)
        invariant AllLiterals(node) ==> pieces == LiteralPieces(host, node.children[..i])
      {
        var child := node.children[i];
        if QueryFreeBelow(node) {
          assert QueryFree(child);
        }
        if ScriptFreeBelow(node) {
          assert ScriptFree(child);
        }
        if AllLiterals(node) {
          LiteralPiecesSnoc(host, node.children, i);
        }
        var more :- ActionChild(child);
        pieces := pieces + more;
        i := i + 1;
      }
      atype := Some("");
      skey := Some("");
      assert node.children[..i] == node.children;
      return Done(Joined(pieces));
    }

    /** What parseAction appends for one child: a getnode's output, a
        literal's text, or any other element echoed at the same level;
        nothing when the child prints nothing. */
    method ActionChild(child: Node) returns (r: Outcome<seq<string>>)
      modifies this, runner, runner.execCache
      decreases depth, child, 2
      ensures r.Done? ==> level == old(level)
      ensures QueryFree(child) ==> querypath == old(querypath)
      ensures ScriptFree(child) ==> runner.Script() == old(runner.Script())
      ensures old(localsources) == [] ==> localsources == []
      ensures child.tag == LiteralTag ==>
        var text := LiteralText(host, child);
        r == Done(if text != "" then [text] else [])
      ensures r.Done? ==> forall k :: 0 <= k < |r.value| ==> r.value[k] != ""
    {
      if child.tag == GetNodeTag {
        var data :- ParseGetNode(child);
        return Done(if Truthy(data) then [data.value] else []);
      } else if child.tag == LiteralTag {
        var data := ParseLiteral(child);
        return Done(if data != "" then [data] else []);
      } else {
        var data :- ParseXml(child, None);
        return Done(if data != "" then [data] else []);
      }
    }

    /** `parseQuery(node)`: set the query path and clear the local sources,
        then interpret the children. A source inside a query names the bare
        `localsources` and always raises. */
    method ParseQuery(node: Node) returns (r: Outcome<Option<string>>)
      modifies this, runner, runner.execCache
      decreases depth, node, 0
      ensures r.Done? ==> level == old(level)
      ensures QueryFreeBelow(node) ==> querypath == QueryPath(Attr(node, "path"))
      ensures ScriptFreeBelow(node) ==> runner.Script() == old(runner.Script())
      ensures localsources == []
      ensures HasSourceChild(node) ==> r.Crash?
      ensures node.children != [] && node.children[0].tag == SourceTag ==> r == Crash(LocalSourcesUndefined)
      ensures AllLiterals(node) ==> r == Done(Joined(LiteralPieces(host, node.children)))
    {
      querypath := QueryPath(Attr(node, "path"));
      localsources := [];
      var pieces: seq<string> := [];
      var i := 0;
      while i < |node.children|
        invariant 0 <= i <= |node.children|
        invariant level == old(level)
        invariant QueryFreeBelow(node) ==> querypath == QueryPath(Attr(node, "path"))
        invariant localsources == []
        invariant ScriptFreeBelow(node) ==> runner.Script() == old(runner.Script())
        invariant forall k :: 0 <= k < i ==> node.children[k].tag != SourceTag
        invariant AllLiterals(node) ==> pieces == LiteralPieces(host, node.children[..i])
      {
        var child := node.children[i];
        if QueryFreeBelow(node) {
          assert QueryFree(child);
        }
        if ScriptFreeBelow(node) {
          assert ScriptFree(child);
        }
        if child.tag == ActionTag {
          var data :- ParseAction(child);
          if Truthy(data) {
            pieces := pieces + [data.value];
          }
        } else if child.tag == SourceTag {
          return Crash(LocalSourcesUndefined);
        } else if child.tag == LiteralTag {
          var data := ParseLiteral(child);
          LiteralPiecesSnoc(host, node.children, i);
          if data != "" {
            pieces := pieces + [data];
          }
        } else {
          level := level + 1;
          var data :- ParseXml(child, None);
          level := level - 1;
          if data != "" {
            pieces := pieces + [data];
          }
        }
        i := i + 1;
      }
      assert node.children[..i] == node.children;
      return Done(Joined(pieces));
    }

    /** `parseSource(node, local)`: load a `files` or `url` source, or run a
        `custom` source's script, and add the tree to the source list. */
    method ParseSource(node: Node, local: bool) returns (r: Outcome<()>)
      modifies this, runner, runner.execCache
      ensures querypath == old(querypath) && level == old(level)
      ensures atype == old(atype) && skey == old(skey)
      ensures Attr(node, "type") != Some("custom") ==> unchanged(runner, runner.execCache)
      ensures LoadRequest(node).None? && Attr(node, "type") != Some("custom") ==>
        r == Done(()) && unchanged(this)
      ensures LoadRequest(node).Some? ==>
        var q := LoadRequest(node).value;
        match host.getDocObj(q.0, q.1, q.2, q.3)
        case None =>
          r == Crash(LoadFailed) && unchanged(this)
        case Some(doc) =>
          var added := if host.truthy(doc) then [doc] else [];
          && r == Done(())
          && globalsources == old(globalsources) + (if local then [] else added)
          && localsources == old(localsources) + (if local then added else [])
      ensures Attr(node, "type") == Some("custom") ==>
        && runner.name == Attr(node, "name")
        && (!Truthy(node.text) ==> runner.code == old(runner.code) && runner.key == old(runner.key))
        && localsources == old(localsources)
        && (r.Crash? ==> globalsources == old(globalsources))
        && (r.Done? ==>
              && runner.out.Some?
              && match runner.host.exec(runner.out.value, Some(Element(SourceName(node), [])), None)
                 case Raised => false
                 case Finished(t, _) => globalsources == old(globalsources) + [t])
      ensures Attr(node, "type") == Some("custom") && Truthy(node.text) ==>
        var code := Normalize(node.text.value);
        && runner.code == Some(code) && fresh(runner.key)
        && match runner.host.compile(code)
           case None => r == Crash(CompileFailed)
           case Some(c) =>
             && runner.out == Some(c)
             && match runner.host.exec(c, Some(Element(SourceName(node), [])), None)
                case Raised => r == Crash(ScriptFailed)
                case Finished(t, _) => r == Done(()) && globalsources == old(globalsources) + [t]
    {
      var stype := Attr(node, "type");
      if stype == Some("files") || stype == Some("url") {
        var q := LoadRequest(node);
        if q.None? {
          return Done(());
        }
        var source := host.getDocObj(q.value.0, q.value.1, q.value.2, q.value.3);
        if source.None? {
          return Crash(LoadFailed);
        }
        if host.truthy(source.value) {
          if local {
            localsources := localsources + [source.value];
          } else {
            globalsources := globalsources + [source.value];
          }
        }
        r := Done(());
      } else if stype == Some("custom") {
        runner.SetName(Attr(node, "name"));
        runner.SetCode(node.text);
        runner.SetTree(Some(Element(SourceName(node), [])));
        var tree :- runner.RunSource();
        globalsources := globalsources + [tree];
        r := Done(());
      } else {
        r := Done(());
      }
    }

    /** What parseModel appends for one child of the model, or "" for
        nothing: a source is declared, a query, a literal, a nested model or
        an element one level deeper is interpreted. */
    method ModelChild(child: Node) returns (r: Outcome<string>)
      modifies this, runner, runner.execCache
      decreases depth, child, 2
      ensures r.Done? ==> level == old(level)
      ensures child.tag == ModelTag && !Truthy(Attr(child, "path")) && child.children != [] ==> r == Done("")
    {
      if child.tag == SourceTag {
        var loaded :- ParseSource(child, false);
        return Done("");
      } else if child.tag == QueryTag {
        var data :- ParseQuery(child);
        return Done(data.GetOr(""));
      } else if child.tag == LiteralTag {
        var data := ParseLiteral(child);
        return Done(data);
      } else if child.tag == ModelTag {
        var data := NestedModel(child, child.children == []);
        return Done(data.GetOr(""));
      } else {
        level := level + 1;
        var data :- ParseXml(child, None);
        level := level - 1;
        return Done(data);
      }
    }

    /** `parseModel(doc)`: interpret a model document and return its output;
        a root that is not `{xdra}model` is not interpreted at all. */
    method ParseModel(doc: Node) returns (r: Outcome<Option<string>>)
      modifies this, runner, runner.execCache
      decreases depth, doc, 0
      ensures doc.tag != ModelTag ==> r == Done(None) && unchanged(this, runner, runner.execCache)
      ensures doc.tag == ModelTag && r.Done? ==> r.value.Some? && r.value.value != ""
      ensures doc.tag == ModelTag && doc.children == [] ==>
        r == Done(Some(if Truthy(doc.tail) then doc.tail.value else NoOutput))
      ensures r.Done? ==> level == old(level)
    {
      if doc.tag != ModelTag {
        return Done(None);
      }
      var output: seq<string> := [];
      var i := 0;
      while i < |doc.children|
        invariant 0 <= i <= |doc.children|
        invariant level == old(level)
        invariant forall k :: 0 <= k < |output| ==> output[k] != ""
        invariant doc.children == [] ==> output == []
      {
        var data :- ModelChild(doc.children[i]);
        if data != "" {
          output := output + [data];
        }
        i := i + 1;
      }
      if Truthy(doc.tail) {
        output := output + [doc.tail.value];
      }
      if output == [] {
        return Done(Some(NoOutput));
      }
      assert output[|output| - 1] != "";
      if doc.children == [] {
        assert output == [] + [doc.tail.value];
        ConcatSnoc([], doc.tail.value);
        assert Concat(output) == doc.tail.value;
      }
      ConcatSnoc(output[..|output| - 1], output[|output| - 1]);
      assert output[..|output| - 1] + [output[|output| - 1]] == output;
      return Done(Some(Concat(output)));
    }
  }
}
