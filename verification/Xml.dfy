/** `parse_xml`, `find_nodes` and `descendants` of src/parser.rs. */
module Xml {
  import opened Text

  datatype Node = Node(name: string, attrs: map<string, string>, children: seq<Node>)

  /** What the tokenizer delivers; the end of the sequence is the end of the file. */
  datatype Event =
    | Start(name: string, attrs: map<string, string>)
    | Empty(name: string, attrs: map<string, string>)
    | End
    | Other
    | Unreadable

  // ---------- the stack machine ----------

  datatype State = State(stack: seq<Node>, root: Option<Node>)

  const INITIAL: State := State([], None)

  function Attach(s: State, node: Node): State {
    if s.stack == [] then s.(root := Some(node))
    else
      var n := |s.stack| - 1;
      s.(stack := s.stack[..n] + [s.stack[n].(children := s.stack[n].children + [node])])
  }

  function Step(s: State, e: Event): State {
    match e
    case Start(name, attrs) => s.(stack := s.stack + [Node(name, attrs, [])])
    case Empty(name, attrs) => Attach(s, Node(name, attrs, []))
    case End =>
      if s.stack == [] then s.(root := None)
      else Attach(s.(stack := s.stack[..|s.stack| - 1]), s.stack[|s.stack| - 1])
    case _ => s
  }

  function Run(es: seq<Event>, s: State): State {
    if es == [] then s else Run(es[1..], Step(s, es[0]))
  }

  function Parse(es: seq<Event>): Option<Node> {
    if Unreadable in es then None else Run(es, INITIAL).root
  }

  method ParseXml(es: seq<Event>) returns (r: Option<Node>)
    ensures r == Parse(es)
  {
    var stack, root := [], None;
    for i := 0 to |es|
      invariant Unreadable !in es[..i]
      invariant Run(es[i..], State(stack, root)) == Run(es, INITIAL)
    {
      ghost var s := State(stack, root);
      assert es[i..][0] == es[i] && es[i..][1..] == es[i + 1..];
      match es[i] {
        case Start(name, attrs) => stack := stack + [Node(name, attrs, [])];
        case Empty(name, attrs) => stack, root := AttachNode(stack, root, Node(name, attrs, []));
        case End =>
          if stack == [] {
            root := None;
          } else {
            stack, root := AttachNode(stack[..|stack| - 1], root, stack[|stack| - 1]);
          }
        case Unreadable => assert es[i] in es; return None;
        case Other =>
      }
      assert State(stack, root) == Step(s, es[i]);
    }
    return root;
  }

  method AttachNode(stack: seq<Node>, root: Option<Node>, node: Node) returns (stack': seq<Node>, root': Option<Node>)
    ensures State(stack', root') == Attach(State(stack, root), node)
  {
    stack', root' := stack, root;
    if stack == [] {
      root' := Some(node);
    } else {
      var n := |stack| - 1;
      stack' := stack[n := stack[n].(children := stack[n].children + [node])];
    }
  }

  // ---------- properly nested markup ----------

  /** Anything the machine ignores, an empty-element tag, or a start tag, content and an end tag. */
  datatype Markup = Noise | SelfClosing(name: string, attrs: map<string, string>)
                  | Element(name: string, attrs: map<string, string>, content: Content)
  datatype Content = Done | Then(item: Markup, rest: Content)

  function EventsOf(m: Markup): seq<Event> {
    match m
    case Noise => [Other]
    case SelfClosing(name, attrs) => [Empty(name, attrs)]
    case Element(name, attrs, content) => [Start(name, attrs)] + Events(content) + [End]
  }

  function Events(c: Content): seq<Event> {
    if c.Done? then [] else EventsOf(c.item) + Events(c.rest)
  }

  /** The tree that markup denotes. */
  function Trees(c: Content): seq<Node> {
    match c
    case Done => []
    case Then(Noise, rest) => Trees(rest)
    case Then(SelfClosing(name, attrs), rest) => [Node(name, attrs, [])] + Trees(rest)
    case Then(Element(name, attrs, content), rest) => [Node(name, attrs, Trees(content))] + Trees(rest)
  }

  function AttachAll(s: State, ts: seq<Node>): State
    decreases |ts|
  {
    if ts == [] then s else AttachAll(Attach(s, ts[0]), ts[1..])
  }

  lemma {:induction false} AttachInside(s: State, top: Node, ts: seq<Node>)
    ensures AttachAll(State(s.stack + [top], s.root), ts)
         == State(s.stack + [top.(children := top.children + ts)], s.root)
    decreases |ts|
  {
    if ts == [] {
      assert top.children + [] == top.children;
    } else {
      var next := top.(children := top.children + [ts[0]]);
      var below := State(s.stack + [top], s.root);
      assert below.stack[..|below.stack| - 1] == s.stack;
      assert Attach(below, ts[0]) == State(s.stack + [next], s.root);
      AttachInside(s, next, ts[1..]);
      assert top.children + [ts[0]] + ts[1..] == top.children + ts;
    }
  }

  lemma {:induction false} AttachConcat(s: State, a: seq<Node>, b: seq<Node>)
    ensures AttachAll(s, a + b) == AttachAll(AttachAll(s, a), b)
    decreases |a|
  {
    if a == [] {
      assert a + b == b;
    } else {
      assert (a + b)[0] == a[0] && (a + b)[1..] == a[1..] + b;
      AttachConcat(Attach(s, a[0]), a[1..], b);
    }
  }

  lemma {:induction false} RunConcat(a: seq<Event>, b: seq<Event>, s: State)
    ensures Run(a + b, s) == Run(b, Run(a, s))
  {
    if a == [] {
      assert a + b == b;
    } else {
      assert (a + b)[0] == a[0] && (a + b)[1..] == a[1..] + b;
      RunConcat(a[1..], b, Step(s, a[0]));
    }
  }

  lemma RunOne(e: Event, s: State)
    ensures Run([e], s) == Step(s, e)
  {
    assert [e][1..] == [];
    assert Run([], Step(s, e)) == Step(s, e);
  }

  /** Between its two tags an element gathers exactly the trees of its content. */
  lemma RunElement(name: string, attrs: map<string, string>, inner: seq<Event>, ts: seq<Node>, s: State)
    requires Run(inner, Step(s, Start(name, attrs))) == AttachAll(Step(s, Start(name, attrs)), ts)
    ensures Run([Start(name, attrs)] + inner + [End], s) == Attach(s, Node(name, attrs, ts))
  {
    var open := Node(name, attrs, []);
    RunConcat([Start(name, attrs)] + inner, [End], s);
    RunConcat([Start(name, attrs)], inner, s);
    RunOne(Start(name, attrs), s);
    AttachInside(s, open, ts);
    assert [] + ts == ts;
    var full := State(s.stack + [Node(name, attrs, ts)], s.root);
    assert Run(inner, Step(s, Start(name, attrs))) == full;
    RunOne(End, full);
    assert full.stack[..|full.stack| - 1] == s.stack;
  }

  lemma {:induction false} RunContent(c: Content, s: State)
    ensures Run(Events(c), s) == AttachAll(s, Trees(c))
    decreases c
  {
    if c.Then? {
      var first := EventsOf(c.item);
      RunConcat(first, Events(c.rest), s);
      match c.item {
        case Noise =>
          RunOne(Other, s);
          RunContent(c.rest, s);
        case SelfClosing(name, attrs) =>
          RunOne(Empty(name, attrs), s);
          AttachConcat(s, [Node(name, attrs, [])], Trees(c.rest));
          RunContent(c.rest, Attach(s, Node(name, attrs, [])));
        case Element(name, attrs, content) =>
          RunContent(content, Step(s, Start(name, attrs)));
          RunElement(name, attrs, Events(content), Trees(content), s);
          AttachConcat(s, [Node(name, attrs, Trees(content))], Trees(c.rest));
          RunContent(c.rest, Attach(s, Node(name, attrs, Trees(content))));
      }
    }
  }

  lemma {:induction false} AttachAtTop(root: Option<Node>, ts: seq<Node>)
    ensures AttachAll(State([], root), ts) == State([], if ts == [] then root else Some(ts[|ts| - 1]))
    decreases |ts|
  {
    if ts != [] {
      AttachAtTop(Some(ts[0]), ts[1..]);
    }
  }

  lemma {:induction false} Readable(c: Content)
    ensures Unreadable !in Events(c)
  {
    if c.Then? {
      Readable(c.rest);
      if c.item.Element? {
        Readable(c.item.content);
      }
    }
  }

  /** Nested markup gives back its tree: the last top-level one, and so the only one of a
      document with a single root element. Without any element there is no result. */
  lemma NestedParses(c: Content)
    ensures Parse(Events(c)) == if Trees(c) == [] then None else Some(Trees(c)[|Trees(c)| - 1])
  {
    Readable(c);
    RunContent(c, INITIAL);
    AttachAtTop(None, Trees(c));
  }

  // ---------- unfinished documents ----------

  /** Nothing at or below the given depth has been touched. */
  ghost predicate Above(s: State, s': State) {
    |s.stack| <= |s'.stack| && s'.root == s.root
  }

  lemma {:induction false} AttachAllAbove(s: State, ts: seq<Node>)
    requires s.stack != []
    ensures Above(s, AttachAll(s, ts))
    decreases |ts|
  {
    if ts != [] {
      AttachAllAbove(Attach(s, ts[0]), ts[1..]);
    }
  }

  /** Inside an open element no part of its content closes it. */
  lemma {:induction false} PrefixAbove(c: Content, k: nat, s: State)
    requires s.stack != [] && k <= |Events(c)|
    ensures Above(s, Run(Events(c)[..k], s))
    decreases c
  {
    if c.Then? {
      var first, rest := EventsOf(c.item), Events(c.rest);
      if k < |first| {
        assert Events(c)[..k] == first[..k];
        ItemAbove(c.item, k, s);
      } else {
        assert Events(c)[..k] == first + rest[..k - |first|];
        RunConcat(first, rest[..k - |first|], s);
        var one := Then(c.item, Done);
        assert first + [] == first && Events(one) == first;
        RunContent(one, s);
        AttachAllAbove(s, Trees(one));
        PrefixAbove(c.rest, k - |first|, Run(first, s));
      }
    }
  }

  lemma {:induction false} ItemAbove(m: Markup, k: nat, s: State)
    requires k < |EventsOf(m)| && (s.stack != [] || m.Element?)
    ensures Above(s, Run(EventsOf(m)[..k], s))
    decreases m
  {
    if k > 0 && m.Element? {
      var first, inner := Start(m.name, m.attrs), Events(m.content);
      assert EventsOf(m)[..k] == [first] + inner[..k - 1];
      RunConcat([first], inner[..k - 1], s);
      RunOne(first, s);
      PrefixAbove(m.content, k - 1, Step(s, first));
    }
  }

  function Others(n: nat): seq<Event> { seq(n, _ => Other) }

  lemma {:induction false} RunOthers(n: nat, s: State)
    ensures Run(Others(n), s) == s
  {
    if n > 0 {
      assert Others(n)[1..] == Others(n - 1);
      RunOthers(n - 1, s);
    }
  }

  /** A document cut off before its root element is closed is an error, wherever it is cut. */
  lemma UnclosedRoot(lead: nat, root: Markup, k: nat)
    requires root.Element? && k < |EventsOf(root)|
    ensures Parse(Others(lead) + EventsOf(root)[..k]) == None
  {
    RunConcat(Others(lead), EventsOf(root)[..k], INITIAL);
    RunOthers(lead, INITIAL);
    ItemAbove(root, k, INITIAL);
  }

  // ---------- search ----------

  /** A node and its descendants, parents before children and children in order. */
  function Preorder(n: Node): seq<Node>
    decreases n, |n.children| + 1
  {
    [n] + Below(n, 0)
  }

  function Below(n: Node, from: nat): seq<Node>
    requires from <= |n.children|
    decreases n, |n.children| - from
  {
    if from == |n.children| then [] else Preorder(n.children[from]) + Below(n, from + 1)
  }

  function Named(ns: seq<Node>, name: string): seq<Node> {
    if ns == [] then [] else (if ns[0].name == name then [ns[0]] else []) + Named(ns[1..], name)
  }

  lemma {:induction false} NamedConcat(a: seq<Node>, b: seq<Node>, name: string)
    ensures Named(a + b, name) == Named(a, name) + Named(b, name)
    decreases |a|
  {
    if a == [] {
      assert a + b == b;
    } else {
      assert (a + b)[0] == a[0] && (a + b)[1..] == a[1..] + b;
      NamedConcat(a[1..], b, name);
    }
  }

  function Own(n: Node, name: string): seq<Node> { if n.name == name then [n] else [] }

  /** `find_nodes` is the root, if it matches, followed by `descendants`. */
  lemma RootThenDescendants(n: Node, name: string)
    ensures Named(Preorder(n), name) == Own(n, name) + Named(Below(n, 0), name)
  {
    NamedConcat([n], Below(n, 0), name);
    assert [n][1..] == [];
  }

  lemma NextChild(n: Node, i: nat, name: string, done: seq<Node>)
    requires i < |n.children|
    ensures done + Named(Below(n, i), name) == (done + Named(Preorder(n.children[i]), name)) + Named(Below(n, i + 1), name)
  {
    NamedConcat(Preorder(n.children[i]), Below(n, i + 1), name);
  }

  /** `collect_nodes`, with its accumulator. */
  method CollectNodes(n: Node, name: string, matches: seq<Node>) returns (r: seq<Node>)
    ensures r == matches + Named(Preorder(n), name)
    decreases n
  {
    r := matches;
    if n.name == name {
      r := r + [n];
    }
    RootThenDescendants(n, name);
    ghost var start := r;
    assert start == matches + Own(n, name);
    for i := 0 to |n.children|
      invariant r + Named(Below(n, i), name) == start + Named(Below(n, 0), name)
    {
      NextChild(n, i, name, r);
      r := CollectNodes(n.children[i], name, r);
    }
    assert r + [] == r;
  }

  method FindNodes(n: Node, name: string) returns (r: seq<Node>)
    ensures r == Named(Preorder(n), name)
  {
    r := CollectNodes(n, name, []);
  }

  lemma NextDescendants(n: Node, i: nat, name: string, done: seq<Node>)
    requires i < |n.children|
    ensures done + Named(Below(n, i), name)
         == done + Own(n.children[i], name) + Named(Below(n.children[i], 0), name) + Named(Below(n, i + 1), name)
  {
    var child := n.children[i];
    NextChild(n, i, name, done);
    RootThenDescendants(child, name);
    Regroup(done, Own(child, name), Named(Below(child, 0), name));
  }

  lemma Regroup<T>(a: seq<T>, b: seq<T>, c: seq<T>)
    ensures a + (b + c) == a + b + c
  {
  }

  method Descendants(n: Node, name: string) returns (r: seq<Node>)
    ensures r == Named(Below(n, 0), name)
    decreases n
  {
    r := [];
    for i := 0 to |n.children|
      invariant r + Named(Below(n, i), name) == Named(Below(n, 0), name)
    {
      var child := n.children[i];
      NextDescendants(n, i, name, r);
      var below := Descendants(child, name);
      r := r + Own(child, name);
      r := r + below;
    }
    assert r + [] == r;
  }

  /** The node is this one or lies somewhere below it. */
  predicate Within(x: Node, n: Node) {
    x == n || exists i :: 0 <= i < |n.children| && Within(x, n.children[i])
  }

  lemma {:induction false} PreorderMembers(n: Node, x: Node)
    ensures x in Preorder(n) <==> Within(x, n)
    decreases n, |n.children| + 1
  {
    BelowMembers(n, 0, x);
  }

  lemma {:induction false} BelowMembers(n: Node, from: nat, x: Node)
    requires from <= |n.children|
    ensures x in Below(n, from) <==> exists i :: from <= i < |n.children| && Within(x, n.children[i])
    decreases n, |n.children| - from
  {
    if from < |n.children| {
      PreorderMembers(n.children[from], x);
      BelowMembers(n, from + 1, x);
    }
  }

  lemma {:induction false} NamedMembers(ns: seq<Node>, name: string, x: Node)
    ensures multiset(Named(ns, name))[x] == if x.name == name then multiset(ns)[x] else 0
  {
    if ns != [] {
      NamedMembers(ns[1..], name, x);
      assert ns == [ns[0]] + ns[1..];
    }
  }

  /** The search finds exactly the nodes of that name at any depth. */
  lemma FoundIff(n: Node, name: string, x: Node)
    ensures x in Named(Preorder(n), name) <==> x.name == name && Within(x, n)
  {
    NamedMembers(Preorder(n), name, x);
    PreorderMembers(n, x);
    assert x in Named(Preorder(n), name) <==> multiset(Named(Preorder(n), name))[x] > 0;
    assert x in Preorder(n) <==> multiset(Preorder(n))[x] > 0;
  }

  /** An end tag without a start discards what was read. */
  lemma StrayEnd(c: Content)
    ensures Parse(Events(c) + [End]) == None
  {
    Readable(c);
    RunConcat(Events(c), [End], INITIAL);
    RunContent(c, INITIAL);
    AttachAtTop(None, Trees(c));
    RunOne(End, Run(Events(c), INITIAL));
  }

  /** A document with an unreadable event has no result. */
  lemma UnreadableFails(es: seq<Event>)
    requires Unreadable in es
    ensures Parse(es) == None
  {
  }
}
