/** The figure parser as an event machine, and the tree function it computes
    (python/query_api/src/arxiv_query_api/figures.py:28-89).  `join` resolves an image address against the
    page's, `figureNo` tidies the caption text and matches the figure number at its start. */
module Figures {
  import opened Prelude

  const MAX_FIGURES: nat := 16
  const MAX_IMAGES: nat := 6

  datatype Attrs = Attrs(classes: seq<string>, src: Option<string>)

  /** Void elements have no end tag. */
  datatype Node =
    | Text(data: string)
    | Void(tag: string, attrs: Attrs)
    | Elem(tag: string, attrs: Attrs, children: seq<Node>)

  datatype Event = Start(tag: string, attrs: Attrs) | End(tag: string) | Data(data: string)

  datatype Label = Label(n: nat, rest: string)

  datatype Figure = Figure(n: nat, caption: string, images: seq<string>)

  datatype Tools = Tools(join: string -> string, figureNo: string -> Option<Label>)

  /** Figures and captions are closed. */
  predicate Balanced(nodes: seq<Node>)
    decreases nodes
  {
    nodes != [] ==>
      (match nodes[0]
       case Text(_) => true
       case Void(tag, _) => tag != "figure" && tag != "figcaption"
       case Elem(_, _, cs) => Balanced(cs))
      && Balanced(nodes[1..])
  }

  /** What the HTML parser reports. */
  function Events(nodes: seq<Node>): seq<Event>
    decreases nodes
  {
    if nodes == [] then []
    else
      (match nodes[0]
       case Text(d) => [Data(d)]
       case Void(tag, a) => [Start(tag, a)]
       case Elem(tag, a, cs) => [Start(tag, a)] + Events(cs) + [End(tag)])
      + Events(nodes[1..])
  }

  predicate IsFigure(a: Attrs) {
    "ltx_figure" in a.classes && "ltx_table" !in a.classes
  }

  predicate HasSource(tag: string, a: Attrs) {
    tag == "img" && a.src.Some? && a.src.value != ""
  }

  // ---- the machine ----

  /** `current` holds the images of the figure being read. */
  datatype Machine = Machine(depth: nat, current: Option<seq<string>>, inCaption: nat, parts: seq<string>,
                             figures: seq<Figure>)

  function Joined(parts: seq<string>): string {
    if parts == [] then "" else parts[0] + Joined(parts[1..])
  }

  /** The figure kept for these images and caption parts, if it is numbered and shows something. */
  function Kept(t: Tools, images: seq<string>, parts: seq<string>): seq<Figure> {
    match t.figureNo(Joined(parts))
    case Some(l) => if images == [] then [] else [Figure(l.n, l.rest, Take(images, MAX_IMAGES))]
    case None => []
  }

  function Step(t: Tools, m: Machine, e: Event): Machine {
    match e
    case Start(tag, a) =>
      if tag == "figure" then
        if m.depth > 0 then m.(depth := m.depth + 1)
        else if IsFigure(a) then m.(depth := 1, current := Some([]), parts := [])
        else m
      else if m.depth > 0 && HasSource(tag, a) then
        if m.current.Some? then m.(current := Some(m.current.value + [t.join(a.src.value)])) else m
      else if m.depth == 1 && tag == "figcaption" then m.(inCaption := m.inCaption + 1)
      else if m.inCaption > 0 && tag == "math" then m.(parts := m.parts + [" "])
      else m
    case End(tag) =>
      if tag == "figcaption" && m.inCaption > 0 then m.(inCaption := m.inCaption - 1)
      else if tag == "figure" && m.depth > 0 then
        if m.depth == 1 && m.current.Some? then
          m.(depth := 0, current := None, figures := m.figures + Kept(t, m.current.value, m.parts))
        else m.(depth := m.depth - 1)
      else m
    case Data(d) => if m.inCaption > 0 then m.(parts := m.parts + [d]) else m
  }

  function Run(t: Tools, m: Machine, events: seq<Event>): Machine
    decreases |events|
  {
    if events == [] then m else Run(t, Step(t, m, events[0]), events[1..])
  }

  const START: Machine := Machine(0, None, 0, [], [])

  lemma {:induction false} RunConcat(t: Tools, m: Machine, a: seq<Event>, b: seq<Event>)
    ensures Run(t, m, a + b) == Run(t, Run(t, m, a), b)
    decreases |a|
  {
    if a == [] {
      assert a + b == b;
    } else {
      assert (a + b)[1..] == a[1..] + b;
      RunConcat(t, Step(t, m, a[0]), a[1..], b);
    }
  }

  lemma RunOne(t: Tools, m: Machine, e: Event)
    ensures Run(t, m, [e]) == Step(t, m, e)
  {
    assert Run(t, Step(t, m, e), [e][1..]) == Step(t, m, e);
  }

  /** An element's events: its start, its content, its end, and what follows. */
  lemma RunElem(t: Tools, m: Machine, nodes: seq<Node>)
    requires nodes != [] && nodes[0].Elem?
    ensures Run(t, m, Events(nodes)) ==
            Run(t, Step(t, Run(t, Step(t, m, Start(nodes[0].tag, nodes[0].attrs)), Events(nodes[0].children)),
                        End(nodes[0].tag)),
                Events(nodes[1..]))
  {
    hide Step, Run;
    var s, e := [Start(nodes[0].tag, nodes[0].attrs)], [End(nodes[0].tag)];
    var mid, rest := Events(nodes[0].children), Events(nodes[1..]);
    assert Events(nodes) == s + mid + e + rest;
    RunConcat(t, m, s + mid + e, rest);
    RunConcat(t, m, s + mid, e);
    RunConcat(t, m, s, mid);
    RunOne(t, m, s[0]);
    RunOne(t, Run(t, Step(t, m, s[0]), mid), e[0]);
  }

  lemma RunLeaf(t: Tools, m: Machine, nodes: seq<Node>)
    requires nodes != [] && !nodes[0].Elem?
    ensures Run(t, m, Events(nodes)) ==
            Run(t, Step(t, m, if nodes[0].Text? then Data(nodes[0].data) else Start(nodes[0].tag, nodes[0].attrs)),
                Events(nodes[1..]))
  {
    hide Step, Run;
    var e := if nodes[0].Text? then Data(nodes[0].data) else Start(nodes[0].tag, nodes[0].attrs);
    assert Events(nodes) == [e] + Events(nodes[1..]);
    RunConcat(t, m, [e], Events(nodes[1..]));
    RunOne(t, m, e);
  }

  // ---- the tree function ----

  /** Images anywhere below, in document order. */
  function Images(t: Tools, nodes: seq<Node>): seq<string>
    decreases nodes
  {
    if nodes == [] then [] else ImagesOf(t, nodes[0]) + Images(t, nodes[1..])
  }

  function ImagesOf(t: Tools, node: Node): seq<string>
    decreases node
  {
    (if !node.Text? && HasSource(node.tag, node.attrs) then [t.join(node.attrs.src.value)] else [])
    + (if node.Elem? then Images(t, node.children) else [])
  }

  /** Text of the figure's own captions, a formula showing as a blank.  A caption is the figure's own
      unless it sits in a nested figure; `deep` says we are in one, `inside` that we are in an own caption. */
  function Own(nodes: seq<Node>, inside: bool, deep: bool): seq<string>
    decreases nodes
  {
    if nodes == [] then [] else OwnOf(nodes[0], inside, deep) + Own(nodes[1..], inside, deep)
  }

  function OwnOf(node: Node, inside: bool, deep: bool): seq<string>
    decreases node
  {
    match node
    case Text(d) => if inside then [d] else []
    case Void(tag, _) => if inside && tag == "math" then [" "] else []
    case Elem(tag, _, cs) =>
      (if inside && tag == "math" then [" "] else [])
      + Own(cs, inside || (tag == "figcaption" && !deep), deep || tag == "figure")
  }

  /** The figures of a page, given how to read a caption: the outermost counted ones, in document order. */
  function FiguresBy(t: Tools, caption: seq<Node> -> seq<string>, nodes: seq<Node>): seq<Figure>
    decreases nodes
  {
    if nodes == [] then [] else FiguresOf(t, caption, nodes[0]) + FiguresBy(t, caption, nodes[1..])
  }

  function FiguresOf(t: Tools, caption: seq<Node> -> seq<string>, node: Node): seq<Figure>
    decreases node
  {
    if !node.Elem? then []
    else if node.tag == "figure" && IsFigure(node.attrs) then Kept(t, Images(t, node.children), caption(node.children))
    else FiguresBy(t, caption, node.children)
  }

  function OwnCaption(nodes: seq<Node>): seq<string> {
    Own(nodes, false, false)
  }

  // ---- what the machine computes on any tree ----

  /** The caption counter after some nodes of a figure. */
  function Left(nodes: seq<Node>, deep: bool, c: nat): (r: nat)
    ensures r <= c
    decreases nodes
  {
    if nodes == [] then c else Left(nodes[1..], deep, LeftOf(nodes[0], deep, c))
  }

  function LeftOf(node: Node, deep: bool, c: nat): (r: nat)
    ensures r <= c
    decreases node
  {
    if !node.Elem? then c
    else
      var c' := if node.tag == "figcaption" && !deep then c + 1 else c;
      var inner := Left(node.children, deep || node.tag == "figure", c');
      if node.tag == "figcaption" && inner > 0 then inner - 1 else inner
  }

  /** The caption parts collected. */
  function Collected(nodes: seq<Node>, deep: bool, c: nat): seq<string>
    decreases nodes
  {
    if nodes == [] then []
    else CollectedOf(nodes[0], deep, c) + Collected(nodes[1..], deep, LeftOf(nodes[0], deep, c))
  }

  function CollectedOf(node: Node, deep: bool, c: nat): seq<string>
    decreases node
  {
    match node
    case Text(d) => if c > 0 then [d] else []
    case Void(tag, _) => if c > 0 && tag == "math" then [" "] else []
    case Elem(tag, _, cs) =>
      (if c > 0 && tag == "math" then [" "] else [])
      + Collected(cs, deep || tag == "figure", if tag == "figcaption" && !deep then c + 1 else c)
  }

  function CollectedCaption(nodes: seq<Node>): seq<string> {
    Collected(nodes, false, 0)
  }

  function Inside(t: Tools, m: Machine, nodes: seq<Node>, deep: bool): Machine
    requires m.current.Some?
  {
    m.(current := Some(m.current.value + Images(t, nodes)), parts := m.parts + Collected(nodes, deep, m.inCaption),
       inCaption := Left(nodes, deep, m.inCaption))
  }

  function InsideOf(t: Tools, m: Machine, node: Node, deep: bool): Machine
    requires m.current.Some?
  {
    m.(current := Some(m.current.value + ImagesOf(t, node)), parts := m.parts + CollectedOf(node, deep, m.inCaption),
       inCaption := LeftOf(node, deep, m.inCaption))
  }

  lemma InsideUnfold(t: Tools, m: Machine, nodes: seq<Node>, deep: bool)
    requires m.current.Some?
    ensures Inside(t, m, nodes, deep) ==
            if nodes == [] then m else Inside(t, InsideOf(t, m, nodes[0], deep), nodes[1..], deep)
  {
    if nodes == [] {
      assert m.parts + [] == m.parts && m.current.value + [] == m.current.value;
    } else {
      hide ImagesOf, CollectedOf, LeftOf;
      assert (m.current.value + ImagesOf(t, nodes[0])) + Images(t, nodes[1..]) == m.current.value + Images(t, nodes);
      assert (m.parts + CollectedOf(nodes[0], deep, m.inCaption))
             + Collected(nodes[1..], deep, LeftOf(nodes[0], deep, m.inCaption))
          == m.parts + Collected(nodes, deep, m.inCaption);
    }
  }

  lemma InsideLeaf(t: Tools, m: Machine, node: Node, deep: bool)
    requires m.depth > 0 && m.current.Some? && !node.Elem?
    requires node.Void? ==> node.tag != "figure" && node.tag != "figcaption"
    ensures Step(t, m, if node.Text? then Data(node.data) else Start(node.tag, node.attrs)) ==
            InsideOf(t, m, node, deep)
  {
    var src := if !node.Text? && HasSource(node.tag, node.attrs) then [t.join(node.attrs.src.value)] else [];
    assert src + [] == src == ImagesOf(t, node);
    assert m.parts + [] == m.parts && m.current.value + [] == m.current.value;
  }

  lemma InsideElem(t: Tools, m: Machine, node: Node, deep: bool)
    requires m.depth > 0 && m.current.Some? && (deep <==> m.depth > 1) && node.Elem?
    ensures var s := Step(t, m, Start(node.tag, node.attrs));
            s.current.Some? && s.depth > 0 && ((deep || node.tag == "figure") <==> s.depth > 1) &&
            Step(t, Inside(t, s, node.children, deep || node.tag == "figure"), End(node.tag)) ==
              InsideOf(t, m, node, deep)
  {
    hide Images, Collected, Left;
    var s := Step(t, m, Start(node.tag, node.attrs));
    var cs, d := node.children, deep || node.tag == "figure";
    assert m.parts + [] == m.parts && m.current.value + [] == m.current.value;
    var src := if HasSource(node.tag, node.attrs) then [t.join(node.attrs.src.value)] else [];
    assert (m.current.value + src) + Images(t, cs) == m.current.value + (src + Images(t, cs));
    var blank := if m.inCaption > 0 && node.tag == "math" then [" "] else [];
    assert (m.parts + blank) + Collected(cs, d, s.inCaption) == m.parts + (blank + Collected(cs, d, s.inCaption));
  }

  /** Inside a figure: images are gathered, parts collected, and the depth comes back. */
  lemma {:induction false} RunInside(t: Tools, m: Machine, nodes: seq<Node>, deep: bool)
    requires Balanced(nodes) && m.depth > 0 && m.current.Some? && (deep <==> m.depth > 1)
    ensures Run(t, m, Events(nodes)) == Inside(t, m, nodes, deep)
    decreases nodes
  {
    hide Step, Inside, Events;
    InsideUnfold(t, m, nodes, deep);
    if nodes == [] {
      NoEvents();
    } else {
      if nodes[0].Elem? {
        RunElem(t, m, nodes);
        InsideElem(t, m, nodes[0], deep);
        var deeper := deep || nodes[0].tag == "figure";
        RunInside(t, Step(t, m, Start(nodes[0].tag, nodes[0].attrs)), nodes[0].children, deeper);
      } else {
        RunLeaf(t, m, nodes);
        InsideLeaf(t, m, nodes[0], deep);
      }
      RunInside(t, InsideOf(t, m, nodes[0], deep), nodes[1..], deep);
    }
  }

  lemma NoEvents()
    ensures Events([]) == []
  {
  }

  predicate Idle(m: Machine) {
    m.depth == 0 && m.current.None? && m.inCaption == 0
  }

  lemma OutsideLeaf(t: Tools, m: Machine, node: Node)
    requires Idle(m) && !node.Elem?
    ensures Step(t, m, if node.Text? then Data(node.data) else Start(node.tag, node.attrs)) ==
            if node.Void? && node.tag == "figure" && IsFigure(node.attrs)
            then m.(depth := 1, current := Some([]), parts := [])
            else m
  {
  }

  /** A counted figure, from its start tag to its end tag. */
  lemma OutsideFigure(t: Tools, m: Machine, node: Node)
    requires Idle(m) && node.Elem? && node.tag == "figure" && IsFigure(node.attrs) && Balanced(node.children)
    ensures var m' := Step(t, Run(t, Step(t, m, Start(node.tag, node.attrs)), Events(node.children)), End(node.tag));
            Idle(m') && m'.figures == m.figures + FiguresOf(t, CollectedCaption, node)
  {
    hide Events, Kept, Images, Collected, Run;
    var s := Step(t, m, Start(node.tag, node.attrs));
    RunInside(t, s, node.children, false);
    assert [] + Images(t, node.children) == Images(t, node.children);
    assert [] + Collected(node.children, false, 0) == Collected(node.children, false, 0);
  }

  lemma OutsideOther(t: Tools, m: Machine, node: Node)
    requires Idle(m) && node.Elem? && !(node.tag == "figure" && IsFigure(node.attrs))
    ensures Step(t, m, Start(node.tag, node.attrs)) == m
    ensures forall n :: Idle(n) ==> Step(t, n, End(node.tag)) == n
  {
  }

  /** Outside any figure: the outermost figures are added, and all counters are back at zero. */
  lemma {:induction false} RunOutside(t: Tools, m: Machine, nodes: seq<Node>)
    requires Balanced(nodes) && Idle(m)
    ensures Idle(Run(t, m, Events(nodes)))
    ensures Run(t, m, Events(nodes)).figures == m.figures + FiguresBy(t, CollectedCaption, nodes)
    decreases nodes
  {
    hide Events, Step, IsFigure, Idle;
    if nodes == [] {
      NoEvents();
      assert m.figures + [] == m.figures;
    } else {
      var m1 := m;
      if nodes[0].Elem? {
        RunElem(t, m, nodes);
        var s := Step(t, m, Start(nodes[0].tag, nodes[0].attrs));
        m1 := Step(t, Run(t, s, Events(nodes[0].children)), End(nodes[0].tag));
        if nodes[0].tag == "figure" && IsFigure(nodes[0].attrs) {
          OutsideFigure(t, m, nodes[0]);
        } else {
          OutsideOther(t, m, nodes[0]);
          RunOutside(t, s, nodes[0].children);
        }
      } else {
        RunLeaf(t, m, nodes);
        OutsideLeaf(t, m, nodes[0]);
        assert m.figures + [] == m.figures;
      }
      RunOutside(t, m1, nodes[1..]);
      Associate(m.figures, FiguresOf(t, CollectedCaption, nodes[0]), FiguresBy(t, CollectedCaption, nodes[1..]));
    }
  }

  lemma Associate<T>(a: seq<T>, b: seq<T>, c: seq<T>)
    ensures (a + b) + c == a + (b + c)
  {
  }

  // ---- when the collected caption is the figure's own ----

  /** Every text and formula of an own caption is met while the caption counter is above zero. */
  predicate Heard(nodes: seq<Node>, inside: bool, deep: bool, c: nat)
    decreases nodes
  {
    nodes == [] || (HeardOf(nodes[0], inside, deep, c) && Heard(nodes[1..], inside, deep, LeftOf(nodes[0], deep, c)))
  }

  predicate HeardOf(node: Node, inside: bool, deep: bool, c: nat)
    decreases node
  {
    match node
    case Text(_) => inside ==> c > 0
    case Void(tag, _) => inside && tag == "math" ==> c > 0
    case Elem(tag, _, cs) =>
      var own := tag == "figcaption" && !deep;
      (inside && tag == "math" ==> c > 0) && Heard(cs, inside || own, deep || tag == "figure", if own then c + 1 else c)
  }

  /** What is collected is never more than the own captions, and all of them exactly when every part is heard. */
  lemma {:induction false} CollectedIsOwn(nodes: seq<Node>, inside: bool, deep: bool, c: nat)
    requires c > 0 ==> inside
    ensures |Collected(nodes, deep, c)| <= |Own(nodes, inside, deep)|
    ensures Collected(nodes, deep, c) == Own(nodes, inside, deep) <==> Heard(nodes, inside, deep, c)
    decreases nodes
  {
    if nodes != [] {
      CollectedOfIsOwn(nodes[0], inside, deep, c);
      CollectedIsOwn(nodes[1..], inside, deep, LeftOf(nodes[0], deep, c));
      hide CollectedOf, OwnOf, HeardOf, LeftOf;
      SameConcat(CollectedOf(nodes[0], deep, c), Collected(nodes[1..], deep, LeftOf(nodes[0], deep, c)),
                 OwnOf(nodes[0], inside, deep), Own(nodes[1..], inside, deep));
    }
  }

  lemma {:induction false} CollectedOfIsOwn(node: Node, inside: bool, deep: bool, c: nat)
    requires c > 0 ==> inside
    ensures |CollectedOf(node, deep, c)| <= |OwnOf(node, inside, deep)|
    ensures CollectedOf(node, deep, c) == OwnOf(node, inside, deep) <==> HeardOf(node, inside, deep, c)
    decreases node
  {
    if node.Elem? {
      var own := node.tag == "figcaption" && !deep;
      var c', i', d' := if own then c + 1 else c, inside || own, deep || node.tag == "figure";
      CollectedIsOwn(node.children, i', d', c');
      SameConcat(if c > 0 && node.tag == "math" then [" "] else [], Collected(node.children, d', c'),
                 if inside && node.tag == "math" then [" "] else [], Own(node.children, i', d'));
    }
  }

  lemma SameConcat<T>(a: seq<T>, b: seq<T>, x: seq<T>, y: seq<T>)
    requires |a| <= |x| && |b| <= |y|
    ensures a + b == x + y <==> a == x && b == y
  {
    if a + b == x + y {
      assert |a| == |x| && |b| == |y|;
      assert a == (a + b)[..|a|] && x == (x + y)[..|x|];
      assert b == (a + b)[|a|..] && y == (x + y)[|x|..];
    }
  }

  /** The condition for every counted figure of the page. */
  predicate AllHeard(nodes: seq<Node>)
    decreases nodes
  {
    nodes == [] || (AllHeardOf(nodes[0]) && AllHeard(nodes[1..]))
  }

  predicate AllHeardOf(node: Node)
    decreases node
  {
    node.Elem? ==>
      if node.tag == "figure" && IsFigure(node.attrs)
      then Heard(node.children, false, false, 0)
      else AllHeard(node.children)
  }

  lemma {:induction false} HeardFigures(t: Tools, nodes: seq<Node>)
    requires AllHeard(nodes)
    ensures FiguresBy(t, CollectedCaption, nodes) == FiguresBy(t, OwnCaption, nodes)
    decreases nodes
  {
    if nodes != [] {
      if nodes[0].Elem? {
        if nodes[0].tag == "figure" && IsFigure(nodes[0].attrs) {
          CollectedIsOwn(nodes[0].children, false, false, 0);
        } else {
          HeardFigures(t, nodes[0].children);
        }
      }
      HeardFigures(t, nodes[1..]);
    }
  }

  /** No caption within a nested figure within an own caption: a condition on the page alone. */
  predicate NoTrap(nodes: seq<Node>, inside: bool, deep: bool)
    decreases nodes
  {
    nodes == [] || (NoTrapOf(nodes[0], inside, deep) && NoTrap(nodes[1..], inside, deep))
  }

  predicate NoTrapOf(node: Node, inside: bool, deep: bool)
    decreases node
  {
    node.Elem? ==>
      !(node.tag == "figcaption" && inside && deep) &&
      NoTrap(node.children, inside || (node.tag == "figcaption" && !deep), deep || node.tag == "figure")
  }

  lemma {:induction false} NoTrapIsHeard(nodes: seq<Node>, inside: bool, deep: bool, c: nat)
    requires NoTrap(nodes, inside, deep) && (c > 0 <==> inside)
    ensures Heard(nodes, inside, deep, c) && Left(nodes, deep, c) == c
    decreases nodes
  {
    if nodes != [] {
      NoTrapOfIsHeard(nodes[0], inside, deep, c);
      NoTrapIsHeard(nodes[1..], inside, deep, c);
    }
  }

  lemma {:induction false} NoTrapOfIsHeard(node: Node, inside: bool, deep: bool, c: nat)
    requires NoTrapOf(node, inside, deep) && (c > 0 <==> inside)
    ensures HeardOf(node, inside, deep, c) && LeftOf(node, deep, c) == c
    decreases node
  {
    if node.Elem? {
      var own := node.tag == "figcaption" && !deep;
      NoTrapIsHeard(node.children, inside || own, deep || node.tag == "figure", if own then c + 1 else c);
    }
  }

  /** On any page the parser's counters return to zero; the figures it lists are the outermost counted ones,
      in order, with all their images; and their captions are their own if every caption part is heard. */
  lemma ParserIsTreeFunction(t: Tools, page: seq<Node>)
    requires Balanced(page)
    ensures var m := Run(t, START, Events(page));
            && Idle(m)
            && m.figures == FiguresBy(t, CollectedCaption, page)
            && (AllHeard(page) ==> m.figures == FiguresBy(t, OwnCaption, page))
  {
    RunOutside(t, START, page);
    assert [] + FiguresBy(t, CollectedCaption, page) == FiguresBy(t, CollectedCaption, page);
    if AllHeard(page) {
      HeardFigures(t, page);
    }
  }

  /** For one figure: the caption parts collected are its own exactly when every part is heard, for which it is
      enough that no own caption holds a nested figure with a caption. */
  lemma CaptionIsOwn(content: seq<Node>)
    ensures CollectedCaption(content) == OwnCaption(content) <==> Heard(content, false, false, 0)
    ensures NoTrap(content, false, false) ==> Heard(content, false, false, 0)
  {
    CollectedIsOwn(content, false, false, 0);
    if NoTrap(content, false, false) {
      NoTrapIsHeard(content, false, false, 0);
    }
  }

  // ---- which figures a page has, told from its elements ----

  ghost predicate IsCounted(x: Node) {
    x.Elem? && x.tag == "figure" && "ltx_figure" in x.attrs.classes && "ltx_table" !in x.attrs.classes
  }

  /** The node is a counted figure that lies in no other one. */
  ghost predicate Outermost(nodes: seq<Node>, node: Node)
    decreases nodes
  {
    nodes != [] && (OutermostIn(nodes[0], node) || Outermost(nodes[1..], node))
  }

  ghost predicate OutermostIn(x: Node, node: Node)
    decreases x
  {
    if IsCounted(x) then x == node else x.Elem? && Outermost(x.children, node)
  }

  /** The node is somewhere among the nodes or below them. */
  ghost predicate Below(nodes: seq<Node>, node: Node)
    decreases nodes
  {
    nodes != [] && (nodes[0] == node || (nodes[0].Elem? && Below(nodes[0].children, node)) || Below(nodes[1..], node))
  }

  ghost predicate ShowsImage(t: Tools, node: Node, image: string) {
    && !node.Text? && node.tag == "img" && node.attrs.src.Some? && node.attrs.src.value != ""
    && image == t.join(node.attrs.src.value)
  }

  lemma {:induction false} ImagesAreBelow(t: Tools, nodes: seq<Node>, image: string)
    ensures image in Images(t, nodes) <==> exists node :: Below(nodes, node) && ShowsImage(t, node, image)
    decreases nodes
  {
    hide ShowsImage;
    if nodes != [] {
      ImagesAreBelow(t, nodes[1..], image);
      if nodes[0].Elem? {
        ImagesAreBelow(t, nodes[0].children, image);
      }
      OwnImage(t, nodes[0], image);
      assert image in Images(t, nodes) <==> image in ImagesOf(t, nodes[0]) || image in Images(t, nodes[1..]);
    }
  }

  lemma OwnImage(t: Tools, node: Node, image: string)
    ensures image in ImagesOf(t, node) <==>
            ShowsImage(t, node, image) || (node.Elem? && image in Images(t, node.children))
  {
  }

  /** What is kept of a figure: the number and the rest of its caption, and the first six of its images. */
  ghost predicate IsFrom(t: Tools, node: Node, f: Figure)
    requires node.Elem?
  {
    var images := Images(t, node.children);
    && t.figureNo(Joined(CollectedCaption(node.children))) == Some(Label(f.n, f.caption))
    && images != [] && f.images <= images && |f.images| == if |images| < 6 then |images| else 6
  }

  lemma {:induction false} FiguresAreOutermost(t: Tools, nodes: seq<Node>, f: Figure)
    ensures f in FiguresBy(t, CollectedCaption, nodes) <==>
            exists node :: Outermost(nodes, node) && node.Elem? && IsFrom(t, node, f)
    decreases nodes
  {
    hide IsFrom;
    if nodes != [] {
      var x := nodes[0];
      FiguresAreOutermost(t, nodes[1..], f);
      if IsCounted(x) {
        KeptIsFrom(t, x, f);
      } else if x.Elem? {
        FiguresAreOutermost(t, x.children, f);
      }
      assert f in FiguresBy(t, CollectedCaption, nodes) <==>
             f in FiguresOf(t, CollectedCaption, x) || f in FiguresBy(t, CollectedCaption, nodes[1..]);
    }
  }

  lemma KeptIsFrom(t: Tools, node: Node, f: Figure)
    requires node.Elem?
    ensures f in Kept(t, Images(t, node.children), CollectedCaption(node.children)) <==> IsFrom(t, node, f)
  {
    hide Images, CollectedCaption, Joined;
    var images := Images(t, node.children);
    if IsFrom(t, node, f) {
      assert f.images == Take(images, MAX_IMAGES);
    }
  }

  /** The figures of a page are those of its outermost counted figure elements that have a number and an image;
      tables are not counted. */
  lemma FiguresAreOfThePage(t: Tools, page: seq<Node>, f: Figure)
    requires Balanced(page)
    ensures f in Run(t, START, Events(page)).figures <==>
            exists node :: Outermost(page, node) && node.Elem? && IsFrom(t, node, f)
  {
    hide IsFrom, FiguresBy;
    RunOutside(t, START, page);
    FiguresAreOutermost(t, page, f);
    assert [] + FiguresBy(t, CollectedCaption, page) == FiguresBy(t, CollectedCaption, page);
  }

  /** A caption is its parts in order. */
  lemma {:induction false} JoinedInOrder(a: seq<string>, b: seq<string>, part: string)
    ensures Joined(a + b) == Joined(a) + Joined(b) && Joined([part]) == part
    decreases |a|
  {
    if a == [] {
      assert a + b == b;
      assert [part][1..] == [];
    } else {
      assert (a + b)[1..] == a[1..] + b;
      JoinedInOrder(a[1..], b, part);
    }
  }

  lemma Singleton(node: Node, deep: bool, c: nat)
    ensures Collected([node], deep, c) == CollectedOf(node, deep, c) && Left([node], deep, c) == LeftOf(node, deep, c)
    ensures forall inside :: Own([node], inside, deep) == OwnOf(node, inside, deep)
  {
    hide CollectedOf, OwnOf, LeftOf;
    assert [node][1..] == [];
  }

  /** A caption holding a nested figure with a caption loses its text from there on. */
  lemma TrappedCaptionIsCut(before: string, panel: string, after: string, a: Attrs)
    ensures var nested := Elem("figure", a, [Elem("figcaption", a, [Text(panel)])]);
            var content := [Elem("figcaption", a, [Text(before), nested, Text(after)])];
            CollectedCaption(content) == [before, panel] && OwnCaption(content) == [before, panel, after]
  {
    var panelCaption := Elem("figcaption", a, [Text(panel)]);
    var nested := Elem("figure", a, [panelCaption]);
    Singleton(Text(panel), true, 1);
    assert CollectedOf(panelCaption, true, 1) == [panel] && LeftOf(panelCaption, true, 1) == 0;
    assert OwnOf(panelCaption, true, true) == [panel];
    Singleton(panelCaption, true, 1);
    assert CollectedOf(nested, false, 1) == [panel] && LeftOf(nested, false, 1) == 0;
    assert OwnOf(nested, true, false) == [panel];
    CaptionOf(Text(before), nested, Text(after), a);
  }

  /** The parts of a caption of three nodes. */
  lemma CaptionOf(x: Node, y: Node, z: Node, a: Attrs)
    ensures var content := [Elem("figcaption", a, [x, y, z])];
            && CollectedCaption(content) ==
                 CollectedOf(x, false, 1) + (CollectedOf(y, false, LeftOf(x, false, 1)) +
                   CollectedOf(z, false, LeftOf(y, false, LeftOf(x, false, 1))))
            && OwnCaption(content) == OwnOf(x, true, false) + (OwnOf(y, true, false) + OwnOf(z, true, false))
  {
    var nodes := [x, y, z];
    var caption := Elem("figcaption", a, nodes);
    var c1, c2 := LeftOf(x, false, 1), LeftOf(y, false, LeftOf(x, false, 1));
    assert nodes[1..] == [y, z] && [y, z][1..] == [z];
    Singleton(z, false, c2);
    Singleton(z, false, 1);
    assert Collected([y, z], false, c1) == CollectedOf(y, false, c1) + CollectedOf(z, false, c2);
    assert Own([y, z], true, false) == OwnOf(y, true, false) + OwnOf(z, true, false);
    Singleton(caption, false, 0);
    assert CollectedOf(caption, false, 0) == Collected(nodes, false, 1);
    assert OwnOf(caption, false, false) == Own(nodes, true, false);
  }

  /** A formula in a caption shows as a blank between the words around it. */
  lemma FormulaShowsAsBlank(before: string, after: string, a: Attrs)
    ensures var content := [Elem("figcaption", a, [Text(before), Elem("math", a, []), Text(after)])];
            CollectedCaption(content) == OwnCaption(content) == [before, " ", after]
  {
    CaptionOf(Text(before), Elem("math", a, []), Text(after), a);
  }

  // ---- the parser object and parse_figures ----

  class FigureParser {
    const t: Tools
    var depth: nat
    var current: Option<seq<string>>
    var inCaption: nat
    var parts: seq<string>
    var figures: seq<Figure>

    function State(): Machine
      reads this
    {
      Machine(depth, current, inCaption, parts, figures)
    }

    predicate Valid()
      reads this
    {
      depth > 0 <==> current.Some?
    }

    constructor (t: Tools)
      ensures Valid() && this.t == t && State() == START
    {
      this.t := t;
      depth, current, inCaption, parts, figures := 0, None, 0, [], [];
    }

    method HandleStartTag(tag: string, a: Attrs)
      requires Valid()
      modifies this
      ensures Valid() && State() == Step(t, old(State()), Start(tag, a))
    {
      if tag == "figure" {
        if depth > 0 {
          depth := depth + 1;
        } else if "ltx_figure" in a.classes && "ltx_table" !in a.classes {
          depth, current, parts := 1, Some([]), [];
        }
      } else if depth > 0 && HasSource(tag, a) {
        current := Some(current.value + [t.join(a.src.value)]);
      } else if depth == 1 && tag == "figcaption" {
        inCaption := inCaption + 1;
      } else if inCaption > 0 && tag == "math" {
        parts := parts + [" "];
      }
    }

    method HandleEndTag(tag: string)
      requires Valid()
      modifies this
      ensures Valid() && State() == Step(t, old(State()), End(tag))
    {
      if tag == "figcaption" && inCaption > 0 {
        inCaption := inCaption - 1;
      } else if tag == "figure" && depth > 0 {
        depth := depth - 1;
        if depth == 0 {
          figures := figures + Kept(t, current.value, parts);
          current := None;
        }
      }
    }

    method HandleData(data: string)
      requires Valid()
      modifies this
      ensures Valid() && State() == Step(t, old(State()), Data(data))
    {
      if inCaption > 0 {
        parts := parts + [data];
      }
    }

    method Feed(events: seq<Event>)
      requires Valid()
      modifies this
      ensures Valid() && State() == Run(t, old(State()), events)
    {
      for i := 0 to |events|
        invariant Valid() && Run(t, State(), events[i..]) == Run(t, old(State()), events)
      {
        assert events[i..][1..] == events[i + 1..];
        match events[i]
        case Start(tag, a) => HandleStartTag(tag, a);
        case End(tag) => HandleEndTag(tag);
        case Data(d) => HandleData(d);
      }
    }
  }

  function Numbers(fs: seq<Figure>): set<nat> {
    set f | f in fs :: f.n
  }

  /** The figures whose number was not seen before. */
  function FirstPerNumber(fs: seq<Figure>): seq<Figure> {
    if fs == [] then []
    else
      var before, last := fs[..|fs| - 1], fs[|fs| - 1];
      FirstPerNumber(before) + (if last.n in Numbers(before) then [] else [last])
  }

  /** Position of the first figure with a number. */
  function FirstAt(fs: seq<Figure>, n: nat): (i: nat)
    requires n in Numbers(fs)
    ensures i < |fs| && fs[i].n == n && forall j :: 0 <= j < i ==> fs[j].n != n
  {
    if fs[0].n == n then 0
    else
      assert n in Numbers(fs[1..]) by {
        var f :| f in fs && f.n == n;
        assert f in fs[1..];
      }
      1 + FirstAt(fs[1..], n)
  }

  lemma FirstAtAppend(before: seq<Figure>, last: Figure)
    ensures Numbers(before + [last]) == Numbers(before) + {last.n}
    ensures forall n :: n in Numbers(before) ==> FirstAt(before + [last], n) == FirstAt(before, n)
    ensures last.n !in Numbers(before) ==> FirstAt(before + [last], last.n) == |before|
  {
    var fs := before + [last];
    forall n | n in Numbers(before)
      ensures FirstAt(fs, n) == FirstAt(before, n)
    {
      var i, k := FirstAt(fs, n), FirstAt(before, n);
      assert fs[k] == before[k];
      assert i <= k;
      assert before[i] == fs[i];
    }
    if last.n !in Numbers(before) {
      var i := FirstAt(fs, last.n);
      assert fs[|before|] == last;
      assert forall j :: 0 <= j < |before| ==> fs[j] in before;
    }
  }

  /** Each of `r` is the first figure with its number, in page order. */
  ghost predicate FirstsInOrder(fs: seq<Figure>, r: seq<Figure>) {
    && (forall i :: 0 <= i < |r| ==> r[i].n in Numbers(fs) && fs[FirstAt(fs, r[i].n)] == r[i])
    && (forall i, j :: 0 <= i < j < |r| ==> FirstAt(fs, r[i].n) < FirstAt(fs, r[j].n))
  }

  lemma FirstsStay(before: seq<Figure>, last: Figure, r: seq<Figure>)
    requires FirstsInOrder(before, r)
    ensures FirstsInOrder(before + [last], r)
    ensures forall i :: 0 <= i < |r| ==> FirstAt(before + [last], r[i].n) < |before|
  {
    hide FirstAt;
    FirstAtAppend(before, last);
    forall i | 0 <= i < |r|
      ensures FirstAt(before + [last], r[i].n) == FirstAt(before, r[i].n) < |before|
      ensures (before + [last])[FirstAt(before, r[i].n)] == r[i]
    {
      assert before[FirstAt(before, r[i].n)] == r[i];
    }
  }

  lemma FirstsGrow(fs: seq<Figure>, r: seq<Figure>, last: Figure)
    requires FirstsInOrder(fs, r) && last.n in Numbers(fs) && fs[FirstAt(fs, last.n)] == last
    requires forall i :: 0 <= i < |r| ==> FirstAt(fs, r[i].n) < FirstAt(fs, last.n)
    ensures FirstsInOrder(fs, r + [last])
  {
    hide FirstAt, Numbers;
  }

  /** Every number once, each with the first figure that carries it, in page order. */
  lemma {:induction false} FirstPerNumberIsFirst(fs: seq<Figure>)
    ensures Numbers(FirstPerNumber(fs)) == Numbers(fs)
    ensures FirstsInOrder(fs, FirstPerNumber(fs))
  {
    hide Numbers, FirstAt, FirstsInOrder, FirstPerNumber;
    if fs == [] {
      NoNumbers();
      NoFirsts(fs);
    } else {
      var before, last := fs[..|fs| - 1], fs[|fs| - 1];
      var r := FirstPerNumber(before);
      assert fs == before + [last];
      FirstPerNumberIsFirst(before);
      FirstPerNumberAppend(before, last);
      FirstsStay(before, last, r);
      FirstAtAppend(before, last);
      NumbersAppend(r, last);
      if last.n !in Numbers(before) {
        FirstsGrow(fs, r, last);
      } else {
        assert r + [] == r;
      }
    }
  }

  lemma NoFirsts(fs: seq<Figure>)
    ensures FirstsInOrder(fs, [])
  {
  }

  lemma NumbersAppend(fs: seq<Figure>, last: Figure)
    ensures Numbers(fs + [last]) == Numbers(fs) + {last.n}
  {
  }

  lemma FirstPerNumberAppend(fs: seq<Figure>, f: Figure)
    ensures FirstPerNumber(fs + [f]) == FirstPerNumber(fs) + (if f.n in Numbers(fs) then [] else [f])
  {
    hide Numbers;
    assert (fs + [f])[..|fs|] == fs;
  }

  lemma NoNumbers()
    ensures Numbers([]) == {} && FirstPerNumber([]) == []
  {
  }

  /** parse_figures on what the HTML parser reports. */
  method ParseFigures(t: Tools, events: seq<Event>) returns (out: seq<Figure>)
    ensures out == Take(FirstPerNumber(Run(t, START, events).figures), 16)
  {
    hide Numbers, FirstPerNumber, Run, Step;
    NoNumbers();
    var parser := new FigureParser(t);
    parser.Feed(events);
    var fs := parser.figures;
    var seen: set<nat> := {};
    out := [];
    for i := 0 to |fs|
      invariant seen == Numbers(fs[..i]) && out == FirstPerNumber(fs[..i])
    {
      assert fs[..i + 1] == fs[..i] + [fs[i]];
      NumbersAppend(fs[..i], fs[i]);
      FirstPerNumberAppend(fs[..i], fs[i]);
      if fs[i].n !in seen {
        seen := seen + {fs[i].n};
        out := out + [fs[i]];
      }
    }
    assert fs[..|fs|] == fs;
    out := Take(out, MAX_FIGURES);
  }
}
