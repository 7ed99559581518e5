/** Element trees as the interpreter sees them, and the part of the element
    library it relies on: attribute lookup, `findall` and `findtext` for the
    path forms `tag`, `./tag` (direct children) and `.//tag` (descendants in
    document order). */
module Xml {

  datatype Option<+T> = None | Some(value: T) {
    function GetOr(default: T): T {
      match this
      case Some(v) => v
      case None => default
    }
  }

  /** Python truthiness of a value that is either None or a string. */
  predicate Truthy(s: Option<string>) {
    s.Some? && s.value != ""
  }

  predicate EndsWith(s: string, suffix: string) {
    |suffix| <= |s| && s[|s| - |suffix|..] == suffix
  }

  /** An element: qualified tag, attributes in the order the element holds
      them, optional text, children in document order, optional tail text. */
  datatype Node = Node(
    tag: string,
    attrs: seq<(string, string)>,
    text: Option<string>,
    children: seq<Node>,
    tail: Option<string>)

  /** A fresh element with a tag and nothing else (`Element(tag)`). */
  function Element(tag: string, children: seq<Node>): Node {
    Node(tag, [], None, children, None)
  }

  /** `attrib.get(name)`: the value of the first attribute called `name`. */
  function Lookup(attrs: seq<(string, string)>, name: string): (r: Option<string>)
    ensures r.Some? <==> exists i :: 0 <= i < |attrs| && attrs[i].0 == name
    ensures r.Some? ==> (name, r.value) in attrs
  {
    if attrs == [] then None
    else if attrs[0].0 == name then Some(attrs[0].1)
    else
      var r := Lookup(attrs[1..], name);
      assert forall i :: 1 <= i < |attrs| ==> attrs[i] == attrs[1..][i - 1];
      r
  }

  function Attr(n: Node, name: string): Option<string> {
    Lookup(n.attrs, name)
  }

  // ---------------------------------------------------------------------
  // Paths
  // ---------------------------------------------------------------------

  datatype Path = Child(tag: string) | Descendant(tag: string) | Unsupported

  /** A tag name usable as a single path step. */
  predicate PlainTag(t: string) {
    && t != "" && t != "." && t != ".."
    && forall i :: 0 <= i < |t| ==> t[i] != '/' && t[i] != '*' && t[i] != '[' && t[i] != '@'
  }

  function ParsePath(p: string): Path {
    if |p| >= 3 && p[..3] == ".//" && PlainTag(p[3..]) then Descendant(p[3..])
    else if |p| >= 2 && p[..2] == "./" && PlainTag(p[2..]) then Child(p[2..])
    else if PlainTag(p) then Child(p)
    else Unsupported
  }

  function PathText(p: Path): string
    requires !p.Unsupported?
  {
    match p
    case Child(t) => "./" + t
    case Descendant(t) => ".//" + t
  }

  /** Printing a supported path and parsing it back gives the same path. */
  lemma ParsePathText(p: Path)
    requires !p.Unsupported? && PlainTag(p.tag)
    ensures ParsePath(PathText(p)) == p
  {
    var s := PathText(p);
    match p
    case Descendant(t) =>
      assert s[..3] == ".//" && s[3..] == t;
    case Child(t) =>
      assert s[..2] == "./" && s[2..] == t;
      if |s| >= 3 {
        assert s[2] == t[0] && t[0] != '/';
        assert s[..3] != ".//";
      }
  }

  // ---------------------------------------------------------------------
  // findall / findtext
  // ---------------------------------------------------------------------

  /** The nodes of a forest in document order (pre-order). */
  function Preorder(forest: seq<Node>): seq<Node>
    decreases forest
  {
    if forest == [] then []
    else [forest[0]] + Preorder(forest[0].children) + Preorder(forest[1..])
  }

  /** Every node strictly below `n`, in document order. */
  function Descendants(n: Node): seq<Node> {
    Preorder(n.children)
  }

  /** The nodes of `ns` whose tag is `t`, in order. */
  function Tagged(ns: seq<Node>, t: string): (r: seq<Node>)
    ensures |r| <= |ns|
    ensures forall x :: x in r <==> x in ns && x.tag == t
  {
    if ns == [] then []
    else
      var rest := Tagged(ns[1..], t);
      assert forall x :: x in ns <==> x == ns[0] || x in ns[1..];
      if ns[0].tag == t then [ns[0]] + rest else rest
  }

  /** `ns[i]` is the first node of `ns` carrying tag `t`. */
  predicate FirstTagged(ns: seq<Node>, t: string, i: int) {
    && 0 <= i < |ns| && ns[i].tag == t
    && forall j :: 0 <= j < i ==> ns[j].tag != t
  }

  /** The filtered list is empty exactly when no node carries the tag, and
      otherwise starts with the first node that does. */
  lemma {:induction false} TaggedFirst(ns: seq<Node>, t: string)
    ensures Tagged(ns, t) == [] <==> forall i :: 0 <= i < |ns| ==> ns[i].tag != t
    ensures Tagged(ns, t) != [] ==> exists i :: FirstTagged(ns, t, i) && Tagged(ns, t)[0] == ns[i]
  {
    if ns != [] {
      if ns[0].tag == t {
        assert FirstTagged(ns, t, 0);
      } else {
        TaggedFirst(ns[1..], t);
        if Tagged(ns, t) != [] {
          var i :| FirstTagged(ns[1..], t, i) && Tagged(ns[1..], t)[0] == ns[1..][i];
          assert FirstTagged(ns, t, i + 1);
        } else {
          forall i | 0 <= i < |ns| ensures ns[i].tag != t {
            if i > 0 {
              assert ns[i] == ns[1..][i - 1];
            }
          }
        }
      }
    }
  }

  /** `node.findall(path)`. Paths of any other form match nothing here. */
  function FindAll(n: Node, path: string): (r: seq<Node>)
    ensures ParsePath(path).Unsupported? ==> r == []
    ensures forall x :: x in r ==> !ParsePath(path).Unsupported? && x.tag == ParsePath(path).tag
  {
    match ParsePath(path)
    case Child(t) => Tagged(n.children, t)
    case Descendant(t) => Tagged(Descendants(n), t)
    case Unsupported => []
  }

  /** `node.findtext(path)`: the text of the first match ("" when it has none),
      or None when nothing matches. */
  function FindText(n: Node, path: string): Option<string> {
    var m := FindAll(n, path);
    if m == [] then None else Some(m[0].text.GetOr(""))
  }

  /** `./tag` finds exactly the children carrying that tag, in document order. */
  lemma FindAllChildren(n: Node, t: string)
    requires PlainTag(t)
    ensures FindAll(n, "./" + t) == Tagged(n.children, t)
  {
    ParsePathText(Child(t));
  }

  /** `.//tag` finds exactly the descendants carrying that tag, in document order. */
  lemma FindAllDescendants(n: Node, t: string)
    requires PlainTag(t)
    ensures FindAll(n, ".//" + t) == Tagged(Descendants(n), t)
  {
    ParsePathText(Descendant(t));
  }

  /** `findtext("./tag")`: None when no child carries the tag, otherwise
      the text of the first child that does. */
  lemma FindTextChild(n: Node, t: string)
    requires PlainTag(t)
    ensures FindText(n, "./" + t).None? <==> forall i :: 0 <= i < |n.children| ==> n.children[i].tag != t
    ensures FindText(n, "./" + t).Some? ==>
      exists i :: FirstTagged(n.children, t, i) && FindText(n, "./" + t).value == n.children[i].text.GetOr("")
  {
    FindAllChildren(n, t);
    TaggedFirst(n.children, t);
  }

  /** `findtext(".//tag")`: None when no descendant carries the tag,
      otherwise the text of the first one that does, in document order. */
  lemma FindTextDescendant(n: Node, t: string)
    requires PlainTag(t)
    ensures FindText(n, ".//" + t).None? <==> forall i :: 0 <= i < |Descendants(n)| ==> Descendants(n)[i].tag != t
    ensures FindText(n, ".//" + t).Some? ==>
      exists i :: FirstTagged(Descendants(n), t, i) && FindText(n, ".//" + t).value == Descendants(n)[i].text.GetOr("")
  {
    FindAllDescendants(n, t);
    TaggedFirst(Descendants(n), t);
  }
}
