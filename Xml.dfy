/** The SOAP element lookups of the server over a parsed XML tree.
    The tree is what the mxml library builds; the walk order is mxml's
    depth-first document order (a node, its subtree, then its later
    siblings), and a search from a node covers its proper descendants only,
    as mxmlFindElement with MXML_DESCEND_ALL does. */
module Xml {
  import opened Wrappers
  import opened CString

  datatype Attr = Attr(name: string, value: string)

  datatype Node =
    | Element(name: string, attrs: seq<Attr>, children: seq<Node>)
    | Text(text: string)

  /** A node met in a walk, with the siblings that follow it. */
  datatype Pos = Pos(node: Node, following: seq<Node>)

  function Children(n: Node): seq<Node> {
    if n.Element? then n.children else []
  }

  function Size(n: Node): (s: nat)
    ensures s >= 1
    decreases n
  {
    match n
    case Text(_) => 1
    case Element(_, _, cs) => 1 + ForestSize(cs)
  }

  function ForestSize(f: seq<Node>): nat
    decreases f
  {
    if f == [] then 0 else Size(f[0]) + ForestSize(f[1..])
  }

  lemma ForestSizeCons(f: seq<Node>)
    requires f != []
    ensures ForestSize(Children(f[0])) < Size(f[0])
    ensures ForestSize(f) == Size(f[0]) + ForestSize(f[1..])
  {
  }

  /** Document order over a forest: each node, then its subtree, then the
      rest of the forest. */
  function Walk(f: seq<Node>): seq<Pos>
    decreases ForestSize(f)
  {
    if f == [] then []
    else
      ForestSizeCons(f);
      [Pos(f[0], f[1..])] + Walk(Children(f[0])) + Walk(f[1..])
  }

  /** The proper descendants of n, in document order. */
  function Descendants(n: Node): seq<Pos> {
    Walk(Children(n))
  }

  lemma WalkCons(x: Node, rest: seq<Node>)
    ensures Walk([x] + rest) == [Pos(x, rest)] + Walk(Children(x)) + Walk(rest)
  {
    assert ([x] + rest)[1..] == rest;
  }

  // ---------------------------------------------------------------------
  // Name matching

  /** The three name tests the wrapper uses: the exact name, a plain
      suffix (the first-node and Envelope tests) and the qualified form
      (the name itself or `prefix:name`). */
  datatype Pattern = Exact(s: string) | Suffix(s: string) | Qualified(s: string)

  /** The name is `name`, or ends with `:` followed by `name`. */
  predicate NameMatches(elem: string, name: string) {
    elem == name
    || (|elem| >= |name| + 1 && EndsWith(elem, name) && elem[|elem| - |name| - 1] == ':')
  }

  /** The qualified test is: equal, or ending with ":" + name. */
  lemma NameMatchesColon(elem: string, name: string)
    ensures NameMatches(elem, name) <==> elem == name || EndsWith(elem, ":" + name)
  {
    if |elem| >= |name| + 1 {
      var k := |elem| - |name| - 1;
      assert elem[k..] == [elem[k]] + elem[k + 1..];
    }
  }

  predicate Fits(p: Pattern, elem: string) {
    match p
    case Exact(s) => elem == s
    case Suffix(s) => EndsWith(elem, s)
    case Qualified(s) => NameMatches(elem, s)
  }

  /** An element of the walk whose name fits the pattern. */
  predicate Hit(q: Pos, p: Pattern) {
    q.node.Element? && Fits(p, q.node.name)
  }

  /** The first position of a walk that fits the pattern. */
  function FirstWhere(ps: seq<Pos>, p: Pattern): (r: Option<Pos>)
    ensures r.Some? ==> Hit(r.value, p) && r.value in ps
  {
    if ps == [] then None
    else if Hit(ps[0], p) then Some(ps[0])
    else FirstWhere(ps[1..], p)
  }

  /** FirstWhere finds the earliest hit, and none only if there is none. */
  lemma {:induction false} FirstWhereSpec(ps: seq<Pos>, p: Pattern)
    ensures FirstWhere(ps, p).None? <==> forall i :: 0 <= i < |ps| ==> !Hit(ps[i], p)
    ensures FirstWhere(ps, p).Some? ==>
      exists i :: 0 <= i < |ps| && ps[i] == FirstWhere(ps, p).value
                  && forall j :: 0 <= j < i ==> !Hit(ps[j], p)
  {
    if ps != [] && !Hit(ps[0], p) {
      FirstWhereSpec(ps[1..], p);
      if FirstWhere(ps[1..], p).Some? {
        var i :| 0 <= i < |ps[1..]| && ps[1..][i] == FirstWhere(ps[1..], p).value
                 && forall j :: 0 <= j < i ==> !Hit(ps[1..][j], p);
        assert ps[i + 1] == FirstWhere(ps, p).value;
        forall j | 0 <= j < i + 1 ensures !Hit(ps[j], p) {
          if j > 0 { assert ps[j] == ps[1..][j - 1]; }
        }
      } else {
        forall i | 0 <= i < |ps| ensures !Hit(ps[i], p) {
          if i > 0 { assert ps[i] == ps[1..][i - 1]; }
        }
      }
    } else if ps != [] {
      assert ps[0] == FirstWhere(ps, p).value;
    }
  }

  /** A search over two walks one after the other tries the first walk first. */
  lemma {:induction false} FirstWhereAppend(a: seq<Pos>, b: seq<Pos>, p: Pattern)
    ensures FirstWhere(a + b, p) == OrElse(FirstWhere(a, p), FirstWhere(b, p))
  {
    if a == [] {
      assert a + b == b;
    } else {
      assert (a + b)[1..] == a[1..] + b;
      FirstWhereAppend(a[1..], b, p);
    }
  }

  // ---------------------------------------------------------------------
  // Text content

  /** The text of the first text child, when there is one. */
  function FirstText(cs: seq<Node>): (r: Option<string>)
    ensures r.Some? <==> exists i :: 0 <= i < |cs| && cs[i].Text?
    ensures r.Some? ==> exists i :: 0 <= i < |cs| && cs[i] == Text(r.value)
  {
    if cs == [] then None
    else if cs[0].Text? then Some(cs[0].text)
    else
      var r := FirstText(cs[1..]);
      assert forall i :: 0 < i < |cs| ==> cs[i] == cs[1..][i - 1];
      r
  }

  /** What get_element returns for an element it matched: its text, or ""
      when it has no text child. */
  function MatchedText(n: Node): (r: string)
    ensures (forall i :: 0 <= i < |Children(n)| ==> !Children(n)[i].Text?) ==> r == ""
    ensures (exists i :: 0 <= i < |Children(n)| && Children(n)[i].Text?) ==>
              exists i :: 0 <= i < |Children(n)| && Children(n)[i] == Text(r)
  {
    FirstText(Children(n)).GetOr("")
  }

  /** The name of the first element child, when there is one. */
  function FirstElementName(cs: seq<Node>): (r: Option<string>)
    ensures r.Some? ==> exists i :: 0 <= i < |cs| && cs[i].Element? && cs[i].name == r.value
                                    && forall j :: 0 <= j < i ==> cs[j].Text?
    ensures r.None? ==> forall i :: 0 <= i < |cs| ==> cs[i].Text?
  {
    if cs == [] then None
    else if cs[0].Element? then Some(cs[0].name)
    else
      var r := FirstElementName(cs[1..]);
      assert forall i :: 0 < i < |cs| ==> cs[i] == cs[1..][i - 1];
      r
  }

  // ---------------------------------------------------------------------
  // The document state: init_xml and close_xml

  /** The element the lookups start from, and whether it has a parent in the
      tree (a document node, or an enclosing element). */
  datatype Root = Root(at: Pos, hasParent: bool)

  /** What mxmlLoadString hands back: an element that is itself the top of
      the tree (older mxml), or a document node holding the top-level
      nodes. */
  datatype Loaded = LoadedElement(top: Node) | LoadedDocument(nodes: seq<Node>)

  /** The first element of a forest, with the siblings after it. */
  function FirstElement(f: seq<Node>): (r: Option<Pos>)
    ensures r.Some? ==> r.value.node.Element?
    ensures r.None? ==> forall i :: 0 <= i < |f| ==> f[i].Text?
  {
    if f == [] then None
    else if f[0].Element? then Some(Pos(f[0], f[1..]))
    else
      assert forall i :: 0 < i < |f| ==> f[i] == f[1..][i - 1];
      FirstElement(f[1..])
  }

  const EnvelopeName := "Envelope"

  /** The element init_xml settles on before checking that it is the
      Envelope. */
  function FirstRoot(l: Loaded): Option<Root> {
    match l
    case LoadedElement(top) => if top.Element? then Some(Root(Pos(top, []), false)) else None
    case LoadedDocument(nodes) =>
      match FirstElement(nodes)
      case None => None
      case Some(q) => Some(Root(q, true))
  }

  /** Where init_xml looks for an Envelope when the root is not one: the
      whole document, or below the element mxml returned. */
  function EnvelopeScope(l: Loaded): seq<Pos> {
    match l
    case LoadedElement(top) => Descendants(top)
    case LoadedDocument(nodes) => Walk(nodes)
  }

  /** root_xml after init_xml: the first element; kept when its name ends
      with "Envelope", otherwise replaced by the first element named exactly
      "Envelope" in the scope, else by the first whose name ends with it,
      and kept when there is neither. */
  function InitRoot(l: Option<Loaded>): (r: Option<Root>)
    ensures l.None? ==> r.None?
    ensures l.Some? && l.value.LoadedElement? ==> (r.Some? <==> l.value.top.Element?)
    ensures r.Some? ==> r.value.at.node.Element?
  {
    match l
    case None => None
    case Some(loaded) =>
      match FirstRoot(loaded)
      case None => None
      case Some(root) =>
        if EndsWith(root.at.node.name, EnvelopeName) then Some(root)
        else
          var scope := EnvelopeScope(loaded);
          match OrElse(FirstWhere(scope, Exact(EnvelopeName)), FirstWhere(scope, Suffix(EnvelopeName)))
          case Some(q) => Some(Root(q, true))
          case None => Some(root)
  }

  /** doc_xml after init_xml: the document node when one was loaded and it
      holds an element. */
  function InitDocument(l: Option<Loaded>): Option<seq<Node>> {
    match l
    case Some(LoadedDocument(nodes)) => if FirstElement(nodes).Some? then Some(nodes) else None
    case _ => None
  }

  /** When the loaded tree holds an element whose name ends with "Envelope"
      anywhere init_xml looks, the root it settles on is such an element. */
  lemma InitFindsEnvelope(l: Loaded)
    requires exists i :: 0 <= i < |EnvelopeScope(l)| && Hit(EnvelopeScope(l)[i], Suffix(EnvelopeName))
    ensures InitRoot(Some(l)).Some?
    ensures EndsWith(InitRoot(Some(l)).value.at.node.name, EnvelopeName)
  {
    var scope := EnvelopeScope(l);
    FirstWhereSpec(scope, Suffix(EnvelopeName));
    var found := OrElse(FirstWhere(scope, Exact(EnvelopeName)), FirstWhere(scope, Suffix(EnvelopeName)));
    assert found.Some? && EndsWith(found.value.node.name, EnvelopeName);
    if l.LoadedDocument? && FirstElement(l.nodes).None? {
      WalkOfText(l.nodes);
      assert false;
    }
    assert FirstRoot(l).Some?;
  }

  /** A forest of text nodes has no element in its walk. */
  lemma {:induction false} WalkOfText(f: seq<Node>)
    requires forall i :: 0 <= i < |f| ==> f[i].Text?
    ensures forall i :: 0 <= i < |Walk(f)| ==> Walk(f)[i].node.Text?
    decreases |f|
  {
    if f != [] {
      assert forall i :: 0 <= i < |f[1..]| ==> f[1..][i] == f[i + 1];
      WalkOfText(f[1..]);
      assert Walk(f) == [Pos(f[0], f[1..])] + [] + Walk(f[1..]);
    }
  }

  /** The globals root_xml and doc_xml of the wrapper. */
  class XmlContext {
    var root: Option<Root>
    var document: Option<seq<Node>>

    constructor()
      ensures root.None? && document.None?
    {
      root := None;
      document := None;
    }

    /** init_xml: a missing buffer changes nothing; otherwise the buffer is
        parsed and the Envelope chosen. The parser is a parameter. */
    method Init(buffer: Option<string>, parse: string -> Option<Loaded>)
      modifies this
      ensures buffer.None? ==> root == old(root) && document == old(document)
      ensures buffer.Some? ==> root == InitRoot(parse(buffer.value))
      ensures buffer.Some? ==> document == InitDocument(parse(buffer.value))
    {
      if buffer.Some? {
        var loaded := parse(buffer.value);
        root := InitRoot(loaded);
        document := InitDocument(loaded);
      }
    }

    /** close_xml: both pointers are cleared. */
    method Close()
      modifies this
      ensures root.None? && document.None?
    {
      root := None;
      document := None;
    }
  }

  // ---------------------------------------------------------------------
  // get_method

  /** The method name, without its namespace prefix when asked: the text
      after the first ':'. */
  function StripPrefix(name: string, skipPrefix: bool): (r: string)
    ensures !skipPrefix || ':' !in name ==> r == name
    ensures skipPrefix && ':' in name ==>
      exists k :: 0 <= k < |name| && name[k] == ':' && ':' !in name[..k] && r == name[k + 1..]
  {
    if skipPrefix then
      match IndexOf(name, ':')
      case Some(k) => name[k + 1..]
      case None => name
    else name
  }

  /** The first element child of a Body found by a search, when it has one. */
  function MethodIn(body: Option<Pos>): Option<string> {
    match body
    case None => None
    case Some(b) => FirstElementName(Children(b.node))
  }

  /** get_method: the Body is the first descendant named exactly "Body"; if
      it has no element child, the first descendant whose name ends with
      ":Body" is tried (the exact one again when there is none). */
  function GetMethod(root: Option<Root>, skipPrefix: bool): (r: Option<string>)
    ensures root.None? ==> r.None?
  {
    match root
    case None => None
    case Some(rt) =>
      var desc := Descendants(rt.at.node);
      var exact := FirstWhere(desc, Exact("Body"));
      var name := match MethodIn(exact)
        case Some(m) => Some(m)
        case None => MethodIn(OrElse(FirstWhere(desc, Suffix(":Body")), exact));
      match name
      case None => None
      case Some(m) => Some(StripPrefix(m, skipPrefix))
  }

  /** Skipping the prefix only strips the text up to the first ':'. */
  lemma GetMethodPrefix(root: Option<Root>)
    ensures GetMethod(root, true).Some? <==> GetMethod(root, false).Some?
    ensures GetMethod(root, true).Some? ==>
      GetMethod(root, true).value == StripPrefix(GetMethod(root, false).value, true)
  {
  }

  /** The method is the name of the first element child of a descendant
      that is called "Body" or whose name ends with ":Body"; an exact "Body"
      with an element child wins. */
  lemma GetMethodFromBody(rt: Root)
    ensures GetMethod(Some(rt), false).Some? ==>
      exists q :: q in Descendants(rt.at.node) && (Hit(q, Exact("Body")) || Hit(q, Suffix(":Body")))
                  && FirstElementName(Children(q.node)) == GetMethod(Some(rt), false)
    ensures FirstWhere(Descendants(rt.at.node), Exact("Body")).Some? ==>
      var b := FirstWhere(Descendants(rt.at.node), Exact("Body")).value;
      FirstElementName(Children(b.node)).Some? ==> GetMethod(Some(rt), false) == FirstElementName(Children(b.node))
  {
    var desc := Descendants(rt.at.node);
    var exact := FirstWhere(desc, Exact("Body"));
    var suffix := FirstWhere(desc, Suffix(":Body"));
    if MethodIn(exact).None? && suffix.Some? && MethodIn(suffix).Some? {
      assert suffix.value in desc;
    }
  }

  // ---------------------------------------------------------------------
  // get_element: the recursion with its go_to_parent flag

  /** get_element_rec_mxml on a node that has a parent, as written: the
      node itself, then its first child (the child's walk covers the other
      children as its siblings), then its next sibling. The flag is the
      go_to_parent out-parameter. */
  function RecMxml(x: Node, following: seq<Node>, name: string, goToParent: bool): (Option<string>, bool)
    decreases Size(x) + ForestSize(following)
  {
    if goToParent then (None, true)
    else if x.Element? && NameMatches(x.name, name) then (Some(MatchedText(x)), false)
    else
      var cs := Children(x);
      var fromChild := if |cs| > 0 then (ForestSizeCons(cs); RecMxml(cs[0], cs[1..], name, false).0) else None;
      if fromChild.Some? then (fromChild, false)
      else if |following| > 0 then
        ForestSizeCons(following);
        var (fromSibling, flag) := RecMxml(following[0], following[1..], name, false);
        if flag then (None, true)
        else if fromSibling.Some? then (fromSibling, flag)
        else (None, true)
      else (None, true)
  }

  /** The text of the first element in the walk of a forest whose name is
      `name` or `prefix:name`. */
  function SearchText(f: seq<Node>, name: string): Option<string> {
    match FirstWhere(Walk(f), Qualified(name))
    case None => None
    case Some(q) => Some(MatchedText(q.node))
  }

  /** A search from a node tries the node, then its subtree, then its
      later siblings. */
  lemma SearchTextCons(x: Node, following: seq<Node>, name: string)
    ensures SearchText([x] + following, name) ==
      if x.Element? && NameMatches(x.name, name) then Some(MatchedText(x))
      else OrElse(SearchText(Children(x), name), SearchText(following, name))
  {
    var p := Qualified(name);
    var head := [Pos(x, following)];
    WalkCons(x, following);
    FirstWhereAppend(head + Walk(Children(x)), Walk(following), p);
    FirstWhereAppend(head, Walk(Children(x)), p);
    assert FirstWhere(head, p) == (if Hit(head[0], p) then Some(head[0]) else None);
  }

  /** The flag only records failure: the recursion is a plain depth-first
      search over the node, its subtree and its later siblings, in document
      order, and go_to_parent is set exactly when it found nothing. */
  lemma {:induction false} RecMxmlSearches(x: Node, following: seq<Node>, name: string)
    ensures RecMxml(x, following, name, false) ==
      (SearchText([x] + following, name), SearchText([x] + following, name).None?)
    decreases Size(x) + ForestSize(following)
  {
    SearchTextCons(x, following, name);
    if !(x.Element? && NameMatches(x.name, name)) {
      var cs := Children(x);
      if |cs| > 0 {
        ForestSizeCons(cs);
        RecMxmlSearches(cs[0], cs[1..], name);
        assert [cs[0]] + cs[1..] == cs;
      } else {
        assert SearchText(cs, name) == None;
      }
      if |following| > 0 {
        ForestSizeCons(following);
        RecMxmlSearches(following[0], following[1..], name);
        assert [following[0]] + following[1..] == following;
      } else {
        assert SearchText(following, name) == None;
      }
    }
  }

  /** The children of a node, each with the siblings that follow it. */
  function ChildPositions(cs: seq<Node>): (r: seq<Pos>)
    ensures |r| == |cs|
    ensures forall i :: 0 <= i < |cs| ==> r[i] == Pos(cs[i], cs[i + 1..])
  {
    seq(|cs|, i requires 0 <= i < |cs| => Pos(cs[i], cs[i + 1..]))
  }

  /** get_element(name, first_node). From a root without a parent the
      search enters only the first child whose name ends with first_node
      and walks from there (its later siblings included); from a root with
      a parent first_node plays no part and the walk starts at the root. */
  function GetElement(root: Option<Root>, name: string, firstNode: string): Option<string> {
    match root
    case None => None
    case Some(rt) =>
      if rt.hasParent then RecMxml(rt.at.node, rt.at.following, name, false).0
      else
        match FirstWhere(ChildPositions(Children(rt.at.node)), Suffix(firstNode))
        case None => None
        case Some(px) => RecMxml(px.node, px.following, name, false).0
  }

  /** get_element in search terms. */
  lemma GetElementSearches(rt: Root, name: string, firstNode: string)
    ensures rt.hasParent ==>
      GetElement(Some(rt), name, firstNode) == SearchText([rt.at.node] + rt.at.following, name)
    ensures !rt.hasParent ==>
      GetElement(Some(rt), name, firstNode) ==
        match FirstWhere(ChildPositions(Children(rt.at.node)), Suffix(firstNode))
        case None => None
        case Some(px) => SearchText([px.node] + px.following, name)
  {
    RecMxmlSearches(rt.at.node, rt.at.following, name);
    match FirstWhere(ChildPositions(Children(rt.at.node)), Suffix(firstNode))
    case None =>
    case Some(px) => RecMxmlSearches(px.node, px.following, name);
  }

  // ---------------------------------------------------------------------
  // get_element_ptr

  /** get_element_ptr(start_from, name, first_node): the search root is
      start_from or the root; with first_node, it moves to the first
      descendant named exactly first_node, else the first whose name ends
      with it (none: NULL); then the first descendant named exactly `name`
      wins over the first named `prefix:name`. */
  function GetElementPtr(root: Option<Root>, startFrom: Option<Node>, name: string, firstNode: Option<string>): (r: Option<Node>)
    ensures root.None? ==> r.None?
    ensures r.Some? ==> r.value.Element? && NameMatches(r.value.name, name)
  {
    match root
    case None => None
    case Some(rt) =>
      var start := startFrom.GetOr(rt.at.node);
      var scope := match firstNode
        case None => Some(start)
        case Some(fnode) =>
          match OrElse(FirstWhere(Descendants(start), Exact(fnode)), FirstWhere(Descendants(start), Suffix(fnode)))
          case None => None
          case Some(q) => Some(q.node);
      match scope
      case None => None
      case Some(sr) =>
        match OrElse(FirstWhere(Descendants(sr), Exact(name)), FirstWhere(Descendants(sr), Qualified(name)))
        case None => None
        case Some(q) => Some(q.node)
  }

  /** When the scope holds an element named exactly `name`, get_element_ptr
      gives one, even if a `prefix:name` comes earlier; it gives nothing
      only when no element in scope matches either way. */
  lemma GetElementPtrPrefersExact(rt: Root, sr: Node, name: string)
    ensures GetElementPtr(Some(rt), Some(sr), name, None).None? <==>
      forall i :: 0 <= i < |Descendants(sr)| ==> !Hit(Descendants(sr)[i], Qualified(name))
    ensures (exists i :: 0 <= i < |Descendants(sr)| && Hit(Descendants(sr)[i], Exact(name))) ==>
      FirstWhere(Descendants(sr), Exact(name)).Some?
      && GetElementPtr(Some(rt), Some(sr), name, None) == Some(FirstWhere(Descendants(sr), Exact(name)).value.node)
  {
    var d := Descendants(sr);
    FirstWhereSpec(d, Exact(name));
    FirstWhereSpec(d, Qualified(name));
    if FirstWhere(d, Qualified(name)).None? {
      forall i | 0 <= i < |d| ensures !Hit(d[i], Exact(name)) {
        assert !Hit(d[i], Qualified(name));
      }
    }
  }

  // ---------------------------------------------------------------------
  // get_element_in_element and get_element_in_element_ptr

  /** The index of the first direct child element whose name is `name` or
      `prefix:name`. */
  function DirectMatch(cs: seq<Node>, name: string): (r: Option<nat>)
    ensures r.Some? ==> r.value < |cs| && cs[r.value].Element? && NameMatches(cs[r.value].name, name)
    ensures r.Some? ==> forall j :: 0 <= j < r.value ==> !(cs[j].Element? && NameMatches(cs[j].name, name))
    ensures r.None? ==> forall j :: 0 <= j < |cs| ==> !(cs[j].Element? && NameMatches(cs[j].name, name))
  {
    if cs == [] then None
    else if cs[0].Element? && NameMatches(cs[0].name, name) then Some(0)
    else
      assert forall j :: 0 < j < |cs| ==> cs[j] == cs[1..][j - 1];
      match DirectMatch(cs[1..], name)
      case None => None
      case Some(k) => Some(k + 1)
  }

  /** get_element_in_element_ptr, as the sibling walk it is: only the
      direct children of the father are looked at, in order. */
  method ElementInElementPtr(name: string, father: Option<Node>) returns (r: Option<Node>)
    ensures father.None? ==> r.None?
    ensures father.Some? ==>
      r == (match DirectMatch(Children(father.value), name)
            case None => None
            case Some(i) => Some(Children(father.value)[i]))
  {
    if father.None? {
      return None;
    }
    var cs := Children(father.value);
    var i := 0;
    while i < |cs|
      invariant 0 <= i <= |cs|
      invariant forall j :: 0 <= j < i ==> !(cs[j].Element? && NameMatches(cs[j].name, name))
    {
      if cs[i].Element? && NameMatches(cs[i].name, name) {
        return Some(cs[i]);
      }
      i := i + 1;
    }
    return None;
  }

  /** get_element_in_element: the text of the first text child of the
      matched child, NULL when it has none (where get_element reads ""). */
  function GetElementInElement(name: string, father: Option<Node>): (r: Option<string>)
    ensures father.None? ==> r.None?
    ensures father.Some? && DirectMatch(Children(father.value), name).None? ==> r.None?
    ensures father.Some? && DirectMatch(Children(father.value), name).Some? ==>
              var c := Children(father.value)[DirectMatch(Children(father.value), name).value];
              (r.None? <==> forall i :: 0 <= i < |Children(c)| ==> !Children(c)[i].Text?) &&
              (r.Some? ==> exists i :: 0 <= i < |Children(c)| && Children(c)[i] == Text(r.value))
  {
    match father
    case None => None
    case Some(f) =>
      match DirectMatch(Children(f), name)
      case None => None
      case Some(i) => FirstText(Children(Children(f)[i]))
  }

  // ---------------------------------------------------------------------
  // get_attribute

  /** The value of the first attribute with that name (mxmlElementGetAttr). */
  function AttrValue(attrs: seq<Attr>, name: string): (r: Option<string>)
    ensures r.Some? ==> exists i :: 0 <= i < |attrs| && attrs[i] == Attr(name, r.value)
    ensures r.None? ==> forall i :: 0 <= i < |attrs| ==> attrs[i].name != name
  {
    if attrs == [] then None
    else if attrs[0].name == name then Some(attrs[0].value)
    else
      assert forall i :: 0 < i < |attrs| ==> attrs[i] == attrs[1..][i - 1];
      AttrValue(attrs[1..], name)
  }

  /** get_attribute: NULL for a missing node or name. */
  function GetAttribute(node: Option<Node>, name: Option<string>): (r: Option<string>)
    ensures node.None? || name.None? ==> r.None?
    ensures r.Some? ==> (node.value.Element?
      && exists i :: 0 <= i < |node.value.attrs| && node.value.attrs[i] == Attr(name.value, r.value))
  {
    if node.None? || name.None? || !node.value.Element? then None
    else AttrValue(node.value.attrs, name.value)
  }
}
