/**
 A specification printer for MSE trees, and the proof that parsing what it
 prints gives the tree back (apps/cards/mse.py, `parse_mse_set`).
 */
module MseRoundTrip {
  import opened Wrappers
  import opened PyText
  import opened MseParser

  /** A text of one or more lines, a map, or a list of at least two texts and maps. */
  datatype Tree = Leaf(first: string, more: seq<string>) | Branch(entries: seq<Entry>) | Listing(items: seq<Tree>)

  datatype Entry = Entry(key: string, tree: Tree)

  // ----- Legal trees -------------------------------------------------------

  /** Text that survives trimming, tab expansion and line splitting. */
  predicate Plain(s: string) { s != "" && Trimmed(s) && '\t' !in s && NoBreaks(s, STR_BREAKS) }

  predicate LegalKey(s: string) { Plain(s) && ':' !in s && s[0] != '#' }

  predicate LegalMore(s: string) { Plain(s) && ':' !in s && s[0] != '#' }

  predicate Fresh(key: string, entries: seq<Entry>) {
    forall i :: 0 <= i < |entries| ==> entries[i].key != key
  }

  /** No two entries have the same key. */
  predicate DistinctEntries(entries: seq<Entry>) {
    entries == [] ||
    (Fresh(entries[|entries| - 1].key, entries[..|entries| - 1]) && DistinctEntries(entries[..|entries| - 1]))
  }

  predicate Legal(t: Tree) {
    match t
    case Leaf(first, more) => Plain(first) && forall i :: 0 <= i < |more| ==> LegalMore(more[i])
    case Branch(entries) =>
      (forall i | 0 <= i < |entries| :: LegalKey(entries[i].key) && Legal(entries[i].tree)) && DistinctEntries(entries)
    case Listing(items) =>
      |items| >= 2 && forall i | 0 <= i < |items| :: !items[i].Listing? && Legal(items[i])
  }

  lemma {:induction false} DistinctPrefix(a: seq<Entry>, b: seq<Entry>)
    requires DistinctEntries(a + b)
    ensures DistinctEntries(a)
    decreases |b|
  {
    if b == [] {
      assert a + b == a;
    } else {
      assert (a + b)[..|a + b| - 1] == a + b[..|b| - 1];
      DistinctPrefix(a, b[..|b| - 1]);
    }
  }

  lemma {:induction false} NextIsFresh(done: seq<Entry>, entries: seq<Entry>)
    requires entries != [] && DistinctEntries(done + entries)
    ensures Fresh(entries[0].key, done)
    ensures done + entries == done + [entries[0]] + entries[1..]
  {
    assert done + entries == done + [entries[0]] + entries[1..];
    DistinctPrefix(done + [entries[0]], entries[1..]);
    assert (done + [entries[0]])[..|done|] == done;
  }

  // ----- The printer -------------------------------------------------------

  function LayMore(more: seq<string>, indent: nat): seq<Line> {
    if more == [] then [] else [More(indent, more[0])] + LayMore(more[1..], indent)
  }

  /** The lines of one key, nested lines being indented by `width` more. */
  function Lay(key: string, t: Tree, indent: nat, width: nat): seq<Line>
    decreases t, 1
  {
    match t
    case Leaf(first, more) => [Pair(indent, key, first)] + LayMore(more, indent + width)
    case Branch(entries) => [Pair(indent, key, "")] + LayEntries(entries, indent + width, width)
    case Listing(items) => LayItems(key, items, indent, width)
  }

  function LayItems(key: string, items: seq<Tree>, indent: nat, width: nat): seq<Line>
    decreases items, 0
  {
    if items == [] then [] else Lay(key, items[0], indent, width) + LayItems(key, items[1..], indent, width)
  }

  function LayEntries(entries: seq<Entry>, indent: nat, width: nat): seq<Line>
    decreases entries, 0
  {
    if entries == [] then []
    else Lay(entries[0].key, entries[0].tree, indent, width) + LayEntries(entries[1..], indent, width)
  }

  // ----- What a tree stands for --------------------------------------------

  function Continued(text: string, more: seq<string>): string
    decreases |more|
  {
    if more == [] then text else Continued(text + "\n" + more[0], more[1..])
  }

  function Meaning(t: Tree): Value {
    match t
    case Leaf(first, more) => VText(Continued(first, more))
    case Branch(entries) =>
      VMap(seq(|entries|, i requires 0 <= i < |entries| => (entries[i].key, Meaning(entries[i].tree))))
    case Listing(items) => VList(seq(|items|, i requires 0 <= i < |items| => Meaning(items[i])))
  }

  /** The node shows the tree, using only containers from `low` on. */
  predicate Shows(arena: seq<Container>, low: nat, node: Node, t: Tree)
    decreases t
  {
    match t
    case Leaf(first, more) => node == Text(Continued(first, more))
    case Branch(entries) =>
      && node.Ref? && low <= node.container < |arena|
      && |arena[node.container]| == |entries|
      && forall i | 0 <= i < |entries| ::
           arena[node.container][i].0 == entries[i].key &&
           Shows(arena, node.container + 1, arena[node.container][i].1, entries[i].tree)
    case Listing(items) =>
      && node.Many? && |node.items| == |items|
      && forall i | 0 <= i < |items| :: Shows(arena, low, node.items[i], items[i])
  }

  predicate ShowsEntries(arena: seq<Container>, low: nat, c: Container, entries: seq<Entry>) {
    |c| == |entries| &&
    forall i :: 0 <= i < |entries| ==> c[i].0 == entries[i].key && Shows(arena, low, c[i].1, entries[i].tree)
  }

  /** Changes below `low` and new containers do not matter. */
  lemma {:induction false} ShowsStable(a: seq<Container>, a': seq<Container>, low: nat, low': nat, node: Node, t: Tree)
    requires Shows(a, low, node, t) && |a| <= |a'| && low' <= low
    requires forall k :: low <= k < |a| ==> a'[k] == a[k]
    ensures Shows(a', low', node, t)
    decreases t
  {
    match t
    case Leaf(_, _) =>
    case Branch(entries) =>
      var c := node.container;
      forall i | 0 <= i < |entries|
        ensures a'[c][i].0 == entries[i].key && Shows(a', c + 1, a'[c][i].1, entries[i].tree)
      {
        ShowsStable(a, a', c + 1, c + 1, a[c][i].1, entries[i].tree);
      }
    case Listing(items) =>
      forall i | 0 <= i < |items| ensures Shows(a', low', node.items[i], items[i]) {
        ShowsStable(a, a', low, low', node.items[i], items[i]);
      }
  }

  lemma {:induction false} UnfoldNodesIs(arena: seq<Container>, above: nat, nodes: seq<Node>)
    ensures |UnfoldNodes(arena, above, nodes)| == |nodes|
    ensures forall i :: 0 <= i < |nodes| ==> UnfoldNodes(arena, above, nodes)[i] == UnfoldNode(arena, above, nodes[i])
  {
    if nodes != [] {
      UnfoldNodesIs(arena, above, nodes[1..]);
      forall i | 0 < i < |nodes|
        ensures UnfoldNodes(arena, above, nodes)[i] == UnfoldNode(arena, above, nodes[i])
      {
        assert nodes[1..][i - 1] == nodes[i];
      }
    }
  }

  lemma {:induction false} UnfoldEntriesIs(arena: seq<Container>, above: nat, c: Container)
    ensures |UnfoldEntries(arena, above, c)| == |c|
    ensures forall i :: 0 <= i < |c| ==> UnfoldEntries(arena, above, c)[i] == (c[i].0, UnfoldNode(arena, above, c[i].1))
    decreases |c|
  {
    if c != [] { UnfoldEntriesIs(arena, above, c[..|c| - 1]); }
  }

  /** A node that shows a tree unfolds to its meaning. */
  lemma {:induction false} ShownIsMeant(arena: seq<Container>, above: nat, node: Node, t: Tree)
    requires Shows(arena, above + 1, node, t)
    ensures UnfoldNode(arena, above, node) == Meaning(t)
    decreases t
  {
    match t
    case Leaf(_, _) =>
    case Branch(entries) =>
      var c := node.container;
      UnfoldEntriesIs(arena, c, arena[c]);
      forall i | 0 <= i < |entries|
        ensures UnfoldNode(arena, c, arena[c][i].1) == Meaning(entries[i].tree)
      {
        ShownIsMeant(arena, c, arena[c][i].1, entries[i].tree);
      }
      assert UnfoldEntries(arena, c, arena[c]) == Meaning(t).entries;
    case Listing(items) =>
      UnfoldNodesIs(arena, above, node.items);
      forall i | 0 <= i < |items| ensures UnfoldNode(arena, above, node.items[i]) == Meaning(items[i]) {
        ShownIsMeant(arena, above, node.items[i], items[i]);
      }
      assert UnfoldNodes(arena, above, node.items) == Meaning(t).items;
  }

  // ----- The stack while a key is read -------------------------------------

  function Top(s: seq<Frame>): Frame
    requires s != []
  {
    s[|s| - 1]
  }

  function WithLastKey(s: seq<Frame>, lastKey: string): seq<Frame>
    requires s != []
  {
    s[|s| - 1 := Top(s).(lastKey := lastKey)]
  }

  /** The stacks differ at most in the last key of their top. */
  predicate Like(s: seq<Frame>, s': seq<Frame>) {
    s != [] && s' != [] && s' == WithLastKey(s, Top(s').lastKey)
  }

  lemma {:induction false} PopTwice(s: seq<Frame>, deep: int, shallow: int)
    requires shallow <= deep
    ensures PopTo(PopTo(s, deep), shallow) == PopTo(s, shallow)
    decreases |s|
  {
    if s != [] && deep <= Top(s).indent { PopTwice(s[..|s| - 1], deep, shallow); }
  }

  lemma {:induction false} RunConcat(st: State, a: seq<Line>, b: seq<Line>)
    requires Live(st)
    ensures Run(st, a + b) == Run(Run(st, a), b)
    decreases |b|
  {
    if b == [] {
      assert a + b == a;
    } else {
      assert (a + b)[..|a + b| - 1] == a + b[..|b| - 1];
      RunConcat(st, a, b[..|b| - 1]);
    }
  }

  lemma {:induction false} RunOne(st: State, line: Line)
    requires Live(st)
    ensures Run(st, [line]) == Apply(st, line)
  {
    assert [line][..0] == [];
  }

  // ----- One key, its values collected -------------------------------------

  /** The container after `key` has received `nodes`. */
  function WithNodes(base: Container, key: string, nodes: seq<Node>): Container {
    if nodes == [] then base
    else if |nodes| == 1 then base + [(key, nodes[0])]
    else base + [(key, Many(nodes))]
  }

  lemma {:induction false} LookupLast(base: Container, key: string, node: Node)
    ensures Lookup(base + [(key, node)], key) == Some(|base|)
  {}

  predicate Plainly(nodes: seq<Node>) { forall i :: 0 <= i < |nodes| ==> !nodes[i].Many? }

  lemma {:induction false} AppendCollects(base: Container, key: string, nodes: seq<Node>, item: Node)
    requires Lookup(base, key).None? && Plainly(nodes)
    ensures AppendValue(WithNodes(base, key, nodes), key, item) == WithNodes(base, key, nodes + [item])
  {
    if |nodes| == 1 {
      LookupLast(base, key, nodes[0]);
      assert nodes + [item] == [nodes[0], item];
    } else if |nodes| > 1 {
      LookupLast(base, key, Many(nodes));
    }
  }

  lemma {:induction false} ContinueExtends(base: Container, key: string, nodes: seq<Node>, text: string, more: string)
    requires Lookup(base, key).None? && Plainly(nodes)
    ensures Continue(WithNodes(base, key, nodes + [Text(text)]), key, more) ==
            WithNodes(base, key, nodes + [Text(text + "\n" + more)])
  {
    var all := nodes + [Text(text)];
    if |all| == 1 {
      LookupLast(base, key, all[0]);
    } else {
      LookupLast(base, key, Many(all));
      assert all[|all| - 1 := Text(text + "\n" + more)] == nodes + [Text(text + "\n" + more)];
    }
  }

  /** Only container `c` and new containers differ. */
  predicate Touches(a: seq<Container>, a': seq<Container>, c: nat) {
    |a| <= |a'| && forall k :: 0 <= k < |a| && k != c ==> a'[k] == a[k]
  }

  /** The continuation lines of a text. */
  lemma {:induction false} MoreRuns(st: State, more: seq<string>, indent: nat, base: Container, key: string,
                                    nodes: seq<Node>, text: string)
    requires Live(st) && Top(st.stack).indent < indent && Top(st.stack).lastKey == key && key != ""
    requires Lookup(base, key).None? && Plainly(nodes)
    requires st.arena[Top(st.stack).container] == WithNodes(base, key, nodes + [Text(text)])
    ensures var st' := Run(st, LayMore(more, indent));
            && st'.stack == st.stack
            && st'.arena ==
               st.arena[Top(st.stack).container := WithNodes(base, key, nodes + [Text(Continued(text, more))])]
    decreases |more|
  {
    if more != [] {
      var st1 := Apply(st, More(indent, more[0]));
      ContinueExtends(base, key, nodes, text, more[0]);
      RunOne(st, More(indent, more[0]));
      RunConcat(st, [More(indent, more[0])], LayMore(more[1..], indent));
      MoreRuns(st1, more[1..], indent, base, key, nodes, text + "\n" + more[0]);
    }
  }

  /** What reading one item of `key` does to the arena and the popped stack. */
  ghost predicate ItemRead(a: seq<Container>, stack: seq<Frame>, a': seq<Container>, stack': seq<Frame>, t: Tree,
                           base: Container, key: string, nodes: seq<Node>, node: Node)
  {
    && stack != [] && Top(stack).container < |a'|
    && Touches(a, a', Top(stack).container)
    && a'[Top(stack).container] == WithNodes(base, key, nodes + [node])
    && !node.Many? && Shows(a', |a|, node, t)
    && Like(stack, stack')
  }

  /** What reading several items of `key` does. */
  ghost predicate ItemsRead(a: seq<Container>, stack: seq<Frame>, a': seq<Container>, stack': seq<Frame>,
                            items: seq<Tree>, base: Container, key: string, nodes: seq<Node>, added: seq<Node>)
  {
    && stack != [] && Top(stack).container < |a'|
    && Touches(a, a', Top(stack).container)
    && a'[Top(stack).container] == WithNodes(base, key, nodes + added)
    && |added| == |items| && (forall i :: 0 <= i < |items| ==> Shows(a', |a|, added[i], items[i]))
    && Like(stack, stack')
  }

  /** The container on top of the stack shows just these entries. */
  ghost predicate HoldsEntries(a: seq<Container>, stack: seq<Frame>, entries: seq<Entry>) {
    && stack != [] && Top(stack).container < |a|
    && ShowsEntries(a, Top(stack).container + 1, a[Top(stack).container], entries)
  }

  /** What reading entries after those already `done` does. */
  ghost predicate EntriesRead(a: seq<Container>, stack: seq<Frame>, a': seq<Container>, stack': seq<Frame>,
                              all: seq<Entry>) {
    && HoldsEntries(a', stack, all)
    && Touches(a, a', Top(stack).container)
    && Like(stack, stack')
  }

  /** The container on top, or 0 when there is no stack. */
  function TopContainer(s: seq<Frame>): nat { if s == [] then 0 else Top(s).container }

  lemma {:induction false} ItemThenItems(a: seq<Container>, s: seq<Frame>, a1: seq<Container>, s1: seq<Frame>,
                                         a2: seq<Container>, s2: seq<Frame>, items: seq<Tree>, base: Container,
                                         key: string, nodes: seq<Node>, node: Node, rest: seq<Node>)
    requires items != [] && TopContainer(s) < |a|
    requires ItemRead(a, s, a1, s1, items[0], base, key, nodes, node)
    requires ItemsRead(a1, s1, a2, s2, items[1..], base, key, nodes + [node], rest)
    ensures ItemsRead(a, s, a2, s2, items, base, key, nodes, [node] + rest)
  {
    assert nodes + ([node] + rest) == nodes + [node] + rest;
    ShowsStable(a1, a2, |a|, |a|, node, items[0]);
    forall i | 0 < i < |items| ensures Shows(a2, |a|, ([node] + rest)[i], items[i]) {
      ShowsStable(a2, a2, |a1|, |a|, rest[i - 1], items[1..][i - 1]);
    }
  }

  lemma {:induction false} EntriesThenEntries(a: seq<Container>, s: seq<Frame>, a1: seq<Container>, s1: seq<Frame>,
                                              a2: seq<Container>, s2: seq<Frame>, some: seq<Entry>, all: seq<Entry>)
    requires EntriesRead(a, s, a1, s1, some) && EntriesRead(a1, s1, a2, s2, all)
    ensures EntriesRead(a, s, a2, s2, all)
  {}

  lemma {:induction false} ItemIsEntry(a: seq<Container>, s: seq<Frame>, a': seq<Container>, s': seq<Frame>,
                                       done: seq<Entry>, e: Entry, node: Node)
    requires HoldsEntries(a, s, done)
    requires ItemRead(a, s, a', s', e.tree, a[TopContainer(s)], e.key, [], node)
    ensures EntriesRead(a, s, a', s', done + [e])
  {
    var c := TopContainer(s);
    assert [] + [node] == [node];
    ShowsStable(a', a', |a|, c + 1, node, e.tree);
    forall i | 0 <= i < |done| ensures Shows(a', c + 1, a[c][i].1, done[i].tree) {
      ShowsStable(a, a', c + 1, c + 1, a[c][i].1, done[i].tree);
    }
  }

  lemma {:induction false} ItemsAreEntry(a: seq<Container>, s: seq<Frame>, a': seq<Container>, s': seq<Frame>,
                                         done: seq<Entry>, e: Entry, added: seq<Node>)
    requires HoldsEntries(a, s, done)
    requires e.tree.Listing? && |e.tree.items| >= 2
    requires ItemsRead(a, s, a', s', e.tree.items, a[TopContainer(s)], e.key, [], added)
    ensures EntriesRead(a, s, a', s', done + [e])
  {
    var c := TopContainer(s);
    assert [] + added == added;
    ShowsStable(a', a', |a|, c + 1, Many(added), e.tree);
    forall i | 0 <= i < |done| ensures Shows(a', c + 1, a[c][i].1, done[i].tree) {
      ShowsStable(a, a', c + 1, c + 1, a[c][i].1, done[i].tree);
    }
  }

  /** Popping past the level a header opened brings the stack back. */
  lemma {:induction false} PopHeader(s: seq<Frame>, s1: seq<Frame>, level: Frame, s2: seq<Frame>, inner: seq<Frame>,
                                     deep: int, indent: int)
    requires s != [] && Top(s).indent < indent <= deep && level.indent == indent
    requires s1 == s + [level] && inner == PopTo(s2, deep) && Like(s1, inner)
    ensures PopTo(s2, indent) == s
  {
    PopTwice(s2, deep, indent);
    assert inner[..|inner| - 1] == s;
  }

  /** A header followed by the entries of its map is one item. */
  lemma {:induction false} HeaderThenEntries(a: seq<Container>, s: seq<Frame>, a1: seq<Container>, s1: seq<Frame>,
                                             a2: seq<Container>, inner: seq<Frame>, t: Tree, base: Container,
                                             key: string, nodes: seq<Node>, level: Frame)
    requires s != [] && Top(s).container < |a| && t.Branch? && level.container == |a|
    requires |a1| == |a| + 1 && Touches(a, a1, Top(s).container)
    requires a1[Top(s).container] == WithNodes(base, key, nodes + [Ref(|a|)])
    requires s1 == s + [level] && EntriesRead(a1, s1, a2, inner, t.entries)
    ensures ItemRead(a, s, a2, s, t, base, key, nodes, Ref(|a|))
  {}

  /** The first line of a text. */
  lemma {:induction false} FirstLineRuns(st: State, key: string, first: string, indent: nat, base: Container,
                                         nodes: seq<Node>)
    returns (st': State, s: seq<Frame>, s': seq<Frame>)
    requires Live(st) && first != "" && Lookup(base, key).None? && Plainly(nodes)
    requires st.arena[TopContainer(PopTo(st.stack, indent))] == WithNodes(base, key, nodes)
    ensures Live(st') && st' == Run(st, [Pair(indent, key, first)])
    ensures s == PopTo(st.stack, indent) && s' == PopTo(st'.stack, indent) == st'.stack
    ensures s != [] && Top(s).indent < indent && Top(s).container < |st.arena|
    ensures s' == WithLastKey(s, key)
    ensures st'.arena == st.arena[Top(s).container := WithNodes(base, key, nodes + [Text(first)])]
  {
    PopKeepsBottom(st.stack, indent);
    s := PopTo(st.stack, indent);
    AppendCollects(base, key, nodes, Text(first));
    RunOne(st, Pair(indent, key, first));
    st' := Apply(st, Pair(indent, key, first));
    s' := st'.stack;
  }

  lemma {:induction false} LeafIsItem(a: seq<Container>, s: seq<Frame>, a1: seq<Container>, a2: seq<Container>,
                                      s': seq<Frame>, t: Tree, base: Container, key: string, nodes: seq<Node>)
    requires s != [] && Top(s).container < |a| && t.Leaf? && s' == WithLastKey(s, key)
    requires a1 == a[Top(s).container := WithNodes(base, key, nodes + [Text(t.first)])]
    requires a2 == a1[Top(s).container := WithNodes(base, key, nodes + [Text(Continued(t.first, t.more))])]
    ensures ItemRead(a, s, a2, s', t, base, key, nodes, Text(Continued(t.first, t.more)))
  {}

  lemma {:induction false} LeafLaid(st: State, st1: State, st': State, key: string, t: Tree, indent: nat, width: nat)
    requires Live(st) && t.Leaf? && st1 == Run(st, [Pair(indent, key, t.first)])
    requires st' == Run(st1, LayMore(t.more, indent + width))
    ensures st' == Run(st, Lay(key, t, indent, width))
  {
    RunConcat(st, [Pair(indent, key, t.first)], LayMore(t.more, indent + width));
  }

  lemma {:induction false} LeafRuns(st: State, key: string, t: Tree, indent: nat, width: nat, base: Container,
                                    nodes: seq<Node>)
    returns (st': State, s: seq<Frame>, s': seq<Frame>, node: Node)
    requires Live(st) && width >= 1 && key != "" && t.Leaf? && t.first != ""
    requires Lookup(base, key).None? && Plainly(nodes)
    requires st.arena[TopContainer(PopTo(st.stack, indent))] == WithNodes(base, key, nodes)
    ensures Live(st') && st' == Run(st, Lay(key, t, indent, width))
    ensures s == PopTo(st.stack, indent) && s' == PopTo(st'.stack, indent)
    ensures ItemRead(st.arena, s, st'.arena, s', t, base, key, nodes, node)
  {
    var more := LayMore(t.more, indent + width);
    var st1;
    st1, s, s' := FirstLineRuns(st, key, t.first, indent, base, nodes);
    MoreRuns(st1, t.more, indent + width, base, key, nodes, t.first);
    st', node := Run(st1, more), Text(Continued(t.first, t.more));
    LeafLaid(st, st1, st', key, t, indent, width);
    LeafIsItem(st.arena, s, st1.arena, st'.arena, s', t, base, key, nodes);
  }

  /** What reading the header line of a map does: a container of its own, a level on the popped stack. */
  ghost predicate HeaderRead(st: State, s: seq<Frame>, st': State, key: string, indent: nat, base: Container,
                             nodes: seq<Node>)
    requires Live(st)
  {
    && Live(st') && st' == Run(st, [Pair(indent, key, "")])
    && s == PopTo(st.stack, indent) && s != [] && Top(s).indent < indent && Top(s).container < |st.arena|
    && st'.stack == s + [Frame(indent, |st.arena|, "")]
    && |st'.arena| == |st.arena| + 1 && st'.arena[|st.arena|] == []
    && Touches(st.arena, st'.arena, Top(s).container)
    && st'.arena[Top(s).container] == WithNodes(base, key, nodes + [Ref(|st.arena|)])
  }

  /** The header line of a map opens a container of its own. */
  lemma {:induction false} HeaderRuns(st: State, key: string, indent: nat, base: Container, nodes: seq<Node>)
    returns (st': State, s: seq<Frame>)
    requires Live(st) && Lookup(base, key).None? && Plainly(nodes)
    requires st.arena[TopContainer(PopTo(st.stack, indent))] == WithNodes(base, key, nodes)
    ensures HeaderRead(st, s, st', key, indent, base, nodes)
  {
    PopKeepsBottom(st.stack, indent);
    s := PopTo(st.stack, indent);
    AppendCollects(base, key, nodes, Ref(|st.arena|));
    RunOne(st, Pair(indent, key, ""));
    st' := Apply(st, Pair(indent, key, ""));
  }

  /** What reading the entries of a map does, once its container is open. */
  ghost predicate BodyRead(st: State, st': State, inner: seq<Frame>, entries: seq<Entry>, indent: nat, width: nat)
    requires Live(st)
  {
    && Live(st') && st' == Run(st, LayEntries(entries, indent, width)) && inner == PopTo(st'.stack, indent)
    && EntriesRead(st.arena, st.stack, st'.arena, inner, entries)
  }

  /** The entries of a map whose container has just been opened. */
  lemma {:induction false} BodyRuns(st: State, entries: seq<Entry>, indent: nat, width: nat)
    returns (st': State, s': seq<Frame>)
    requires Live(st) && width >= 1 && Top(st.stack).indent < indent && st.arena[Top(st.stack).container] == []
    requires Legal(Branch(entries))
    ensures BodyRead(st, st', s', entries, indent, width)
    decreases entries, 1
  {
    assert PopTo(st.stack, indent) == st.stack;
    assert [] + entries == entries;
    var s;
    st', s, s' := EntriesRun(st, [], entries, indent, width);
  }

  lemma {:induction false} BranchLaid(st: State, st1: State, st': State, key: string, t: Tree, indent: nat, width: nat)
    requires Live(st) && t.Branch? && st1 == Run(st, [Pair(indent, key, "")])
    requires st' == Run(st1, LayEntries(t.entries, indent + width, width))
    ensures st' == Run(st, Lay(key, t, indent, width))
  {
    RunConcat(st, [Pair(indent, key, "")], LayEntries(t.entries, indent + width, width));
  }

  lemma {:induction false} PopAfterBody(s: seq<Frame>, st1: State, st': State, inner: seq<Frame>, level: Frame,
                                        entries: seq<Entry>, indent: nat, width: nat)
    requires s != [] && Top(s).indent < indent && level.indent == indent && st1.stack == s + [level]
    requires Live(st') && inner == PopTo(st'.stack, indent + width)
    requires EntriesRead(st1.arena, st1.stack, st'.arena, inner, entries)
    ensures PopTo(st'.stack, indent) == s
  {
    PopHeader(s, st1.stack, level, st'.stack, inner, indent + width, indent);
  }

  lemma {:induction false} BranchRuns(st: State, key: string, t: Tree, indent: nat, width: nat, base: Container,
                                      nodes: seq<Node>)
    returns (st': State, s: seq<Frame>, s': seq<Frame>, node: Node)
    requires Live(st) && width >= 1 && key != "" && t.Branch? && Legal(t)
    requires Lookup(base, key).None? && Plainly(nodes)
    requires st.arena[TopContainer(PopTo(st.stack, indent))] == WithNodes(base, key, nodes)
    ensures Live(st') && st' == Run(st, Lay(key, t, indent, width))
    ensures s == PopTo(st.stack, indent) && s' == PopTo(st'.stack, indent)
    ensures ItemRead(st.arena, s, st'.arena, s', t, base, key, nodes, node)
    decreases t, 1
  {
    var st1, inner;
    node := Ref(|st.arena|);
    st1, s := HeaderRuns(st, key, indent, base, nodes);
    assert t == Branch(t.entries);
    st', inner := BodyRuns(st1, t.entries, indent + width, width);
    s' := s;
    var level := Frame(indent, |st.arena|, "");
    BranchLaid(st, st1, st', key, t, indent, width);
    PopAfterBody(s, st1, st', inner, level, t.entries, indent, width);
    HeaderThenEntries(st.arena, s, st1.arena, st1.stack, st'.arena, inner, t, base, key, nodes, level);
  }

  lemma {:induction false} ItemRuns(st: State, key: string, t: Tree, indent: nat, width: nat, base: Container,
                                    nodes: seq<Node>)
    returns (st': State, s: seq<Frame>, s': seq<Frame>, node: Node)
    requires Live(st) && width >= 1 && key != "" && !t.Listing? && Legal(t)
    requires Lookup(base, key).None? && Plainly(nodes)
    requires st.arena[TopContainer(PopTo(st.stack, indent))] == WithNodes(base, key, nodes)
    ensures Live(st') && st' == Run(st, Lay(key, t, indent, width))
    ensures s == PopTo(st.stack, indent) && s' == PopTo(st'.stack, indent)
    ensures ItemRead(st.arena, s, st'.arena, s', t, base, key, nodes, node)
    decreases t, 2
  {
    if t.Leaf? {
      st', s, s', node := LeafRuns(st, key, t, indent, width, base, nodes);
    } else {
      st', s, s', node := BranchRuns(st, key, t, indent, width, base, nodes);
    }
  }

  /** The items of a list, one after the other. */
  lemma {:induction false} ItemsRun(st: State, key: string, items: seq<Tree>, indent: nat, width: nat, base: Container,
                                    nodes: seq<Node>)
    returns (st': State, s: seq<Frame>, s': seq<Frame>, added: seq<Node>)
    requires Live(st) && width >= 1 && key != ""
    requires forall i :: 0 <= i < |items| ==> !items[i].Listing? && Legal(items[i])
    requires Lookup(base, key).None? && Plainly(nodes)
    requires st.arena[TopContainer(PopTo(st.stack, indent))] == WithNodes(base, key, nodes)
    ensures Live(st') && st' == Run(st, LayItems(key, items, indent, width))
    ensures s == PopTo(st.stack, indent) && s' == PopTo(st'.stack, indent)
    ensures ItemsRead(st.arena, s, st'.arena, s', items, base, key, nodes, added)
    decreases items, 0
  {
    if items == [] {
      PopKeepsBottom(st.stack, indent);
      st', s, added := st, PopTo(st.stack, indent), [];
      s' := s;
      assert nodes + added == nodes;
    } else {
      var st1, s1, node, rest;
      st1, s, s1, node := ItemRuns(st, key, items[0], indent, width, base, nodes);
      st', s1, s', rest := ItemsRun(st1, key, items[1..], indent, width, base, nodes + [node]);
      RunConcat(st, Lay(key, items[0], indent, width), LayItems(key, items[1..], indent, width));
      added := [node] + rest;
      ItemThenItems(st.arena, s, st1.arena, s1, st'.arena, s', items, base, key, nodes, node, rest);
    }
  }

  lemma {:induction false} KeyIsFree(c: Container, done: seq<Entry>, key: string)
    requires |c| == |done| && Fresh(key, done) && forall i :: 0 <= i < |done| ==> c[i].0 == done[i].key
    ensures Lookup(c, key).None?
  {}

  lemma {:induction false} EntryRuns(st: State, done: seq<Entry>, e: Entry, indent: nat, width: nat)
    returns (st': State, s: seq<Frame>, s': seq<Frame>)
    requires Live(st) && width >= 1
    requires LegalKey(e.key) && Legal(e.tree) && Fresh(e.key, done)
    requires HoldsEntries(st.arena, PopTo(st.stack, indent), done)
    ensures Live(st') && st' == Run(st, Lay(e.key, e.tree, indent, width))
    ensures s == PopTo(st.stack, indent) && s' == PopTo(st'.stack, indent)
    ensures EntriesRead(st.arena, s, st'.arena, s', done + [e])
    decreases e, 2
  {
    PopKeepsBottom(st.stack, indent);
    var base := st.arena[TopContainer(PopTo(st.stack, indent))];
    KeyIsFree(base, done, e.key);
    if e.tree.Listing? {
      var added;
      st', s, s', added := ItemsRun(st, e.key, e.tree.items, indent, width, base, []);
      ItemsAreEntry(st.arena, s, st'.arena, s', done, e, added);
    } else {
      var node;
      st', s, s', node := ItemRuns(st, e.key, e.tree, indent, width, base, []);
      ItemIsEntry(st.arena, s, st'.arena, s', done, e, node);
    }
  }

  lemma {:induction false} NothingRead(a: seq<Container>, s: seq<Frame>, done: seq<Entry>)
    requires HoldsEntries(a, s, done)
    ensures EntriesRead(a, s, a, s, done)
  {}

  lemma {:induction false} EntriesShown(a: seq<Container>, s: seq<Frame>, a': seq<Container>, s': seq<Frame>,
                                        all: seq<Entry>)
    requires EntriesRead(a, s, a', s', all)
    ensures HoldsEntries(a', s', all)
  {}

  /** The entries of a map, one after the other, added to those already `done`. */
  lemma {:induction false} EntriesRun(st: State, done: seq<Entry>, entries: seq<Entry>, indent: nat, width: nat)
    returns (st': State, s: seq<Frame>, s': seq<Frame>)
    requires Live(st) && width >= 1
    requires forall i :: 0 <= i < |entries| ==> LegalKey(entries[i].key) && Legal(entries[i].tree)
    requires DistinctEntries(done + entries)
    requires HoldsEntries(st.arena, PopTo(st.stack, indent), done)
    ensures Live(st') && st' == Run(st, LayEntries(entries, indent, width))
    ensures s == PopTo(st.stack, indent) && s' == PopTo(st'.stack, indent)
    ensures EntriesRead(st.arena, s, st'.arena, s', done + entries)
    decreases entries, 0
  {
    if entries == [] {
      PopKeepsBottom(st.stack, indent);
      st', s := st, PopTo(st.stack, indent);
      s' := s;
      assert done + entries == done;
      NothingRead(st.arena, s, done);
    } else {
      var e := entries[0];
      var st1, s1;
      NextIsFresh(done, entries);
      st1, s, s1 := EntryRuns(st, done, e, indent, width);
      EntriesShown(st.arena, s, st1.arena, s1, done + [e]);
      st', s1, s' := EntriesRun(st1, done + [e], entries[1..], indent, width);
      RunConcat(st, Lay(e.key, e.tree, indent, width), LayEntries(entries[1..], indent, width));
      EntriesThenEntries(st.arena, s, st1.arena, s1, st'.arena, s', done + [e], done + entries);
    }
  }

  lemma {:induction false} ShownRoot(arena: seq<Container>, entries: seq<Entry>)
    requires arena != [] && ShowsEntries(arena, 1, arena[0], entries)
    ensures Unfold(arena, 0) == Meaning(Branch(entries))
  {
    UnfoldEntriesIs(arena, 0, arena[0]);
    forall i | 0 <= i < |entries| ensures UnfoldNode(arena, 0, arena[0][i].1) == Meaning(entries[i].tree) {
      ShownIsMeant(arena, 0, arena[0][i].1, entries[i].tree);
    }
    assert UnfoldEntries(arena, 0, arena[0]) == Meaning(Branch(entries)).entries;
  }

  /** Reading the layout of a legal map gives the map. */
  lemma {:induction false} LayoutRoundTrip(entries: seq<Entry>, width: nat)
    requires width >= 1 && Legal(Branch(entries))
    ensures Unfold(Run(START, LayEntries(entries, 0, width)).arena, 0) == Meaning(Branch(entries))
  {
    var st', s' := BodyRuns(START, entries, 0, width);
    ShownRoot(st'.arena, entries);
  }

  // ----- The text of a layout ----------------------------------------------

  /** The printed form of one line. */
  function Print(line: Line): string {
    match line
    case Skip => ""
    case More(indent, text) => Spaces(indent) + text
    case Pair(indent, key, value) => Spaces(indent) + key + ":" + if value == "" then "" else " " + value
  }

  predicate LegalLine(line: Line) {
    match line
    case Skip => false
    case More(_, text) => LegalMore(text)
    case Pair(_, key, value) => LegalKey(key) && (value == "" || Plain(value))
  }

  lemma {:induction false} NoTabsExpand(s: string, column: nat)
    requires '\t' !in s
    ensures ExpandTabs(s, column) == s
  {
    if s != "" { NoTabsExpand(s[1..], column + 1); }
  }

  lemma {:induction false} LStripSpaces(n: nat, s: string)
    requires s != "" && !IsSpace(s[0])
    ensures LStrip(Spaces(n) + s) == s
  {
    if n == 0 {
      assert Spaces(0) + s == s;
    } else {
      assert (Spaces(n) + s)[1..] == Spaces(n - 1) + s;
      LStripSpaces(n - 1, s);
    }
  }

  /** A printed line without tabs is read as its indent and its text. */
  lemma {:induction false} ReadBody(indent: nat, body: string)
    requires body != "" && Trimmed(body) && '\t' !in body && body[0] != '#'
    ensures var raw := Spaces(indent) + body;
            var colon := IndexOf(body, ':');
            Classify(raw) == if colon == |body| then More(indent, body)
                             else Pair(indent, Strip(body[..colon]), LStrip(body[colon + 1..]))
  {
    var raw := Spaces(indent) + body;
    forall i | 0 <= i < |raw| ensures raw[i] != '\t' {
      if i >= indent { assert raw[i] == body[i - indent]; }
    }
    NoTabsExpand(raw, 0);
    assert raw[|raw| - 1] == body[|body| - 1];
    assert RStrip(raw) == raw;
    LStripSpaces(indent, body);
  }

  /** The body of a key line is trimmed and free of tabs, and splits at its first colon. */
  lemma {:induction false} PairBody(key: string, value: string, tail: string)
    requires LegalKey(key) && (value == "" || Plain(value)) && tail == if value == "" then "" else " " + value
    ensures var body := key + [':'] + tail;
            && Trimmed(body) && '\t' !in body && body[0] == key[0]
            && IndexOf(body, ':') == |key| && body[..|key|] == key && body[|key| + 1..] == tail
  {
    var body := key + [':'] + tail;
    assert body[|body| - 1] == if value == "" then ':' else value[|value| - 1];
    forall c | c in body ensures c != '\t' {
      assert c in key || c == ':' || c in tail;
      if c in tail && value != "" { assert c == ' ' || c in value; }
    }
    IndexOfConcat(key, ':', tail);
  }

  lemma {:induction false} TailIsValue(value: string)
    requires value == "" || Plain(value)
    ensures LStrip(if value == "" then "" else " " + value) == value
  {
    if value != "" {
      assert (" " + value)[1..] == value;
      TrimmedIsStripped(value);
    }
  }

  /** Every legal line is read back as what it was printed from. */
  lemma {:induction false} PrintedLineRead(line: Line)
    requires LegalLine(line)
    ensures Classify(Print(line)) == line
  {
    match line
    case More(indent, text) =>
      ReadBody(indent, text);
      assert forall i :: 0 <= i < |text| ==> text[i] in text;
    case Pair(indent, key, value) =>
      var tail := if value == "" then "" else " " + value;
      PairBody(key, value, tail);
      assert Print(line) == Spaces(indent) + (key + [':'] + tail);
      ReadBody(indent, key + [':'] + tail);
      TrimmedIsStripped(key);
      TailIsValue(value);
  }

  lemma {:induction false} LegalMoreLines(more: seq<string>, indent: nat)
    requires forall i :: 0 <= i < |more| ==> LegalMore(more[i])
    ensures forall l :: l in LayMore(more, indent) ==> LegalLine(l)
  {
    if more != [] { LegalMoreLines(more[1..], indent); }
  }

  lemma {:induction false} LegalLines(key: string, t: Tree, indent: nat, width: nat)
    requires LegalKey(key) && Legal(t)
    ensures forall l :: l in Lay(key, t, indent, width) ==> LegalLine(l)
    decreases t, 1
  {
    match t
    case Leaf(first, more) => LegalMoreLines(more, indent + width);
    case Branch(entries) => LegalEntryLines(entries, indent + width, width);
    case Listing(items) => LegalItemLines(key, items, indent, width);
  }

  lemma {:induction false} LegalItemLines(key: string, items: seq<Tree>, indent: nat, width: nat)
    requires LegalKey(key) && forall i :: 0 <= i < |items| ==> Legal(items[i])
    ensures forall l :: l in LayItems(key, items, indent, width) ==> LegalLine(l)
    decreases items, 0
  {
    if items != [] {
      LegalLines(key, items[0], indent, width);
      LegalItemLines(key, items[1..], indent, width);
    }
  }

  lemma {:induction false} LegalEntryLines(entries: seq<Entry>, indent: nat, width: nat)
    requires forall i :: 0 <= i < |entries| ==> LegalKey(entries[i].key) && Legal(entries[i].tree)
    ensures forall l :: l in LayEntries(entries, indent, width) ==> LegalLine(l)
    decreases entries, 0
  {
    if entries != [] {
      LegalLines(entries[0].key, entries[0].tree, indent, width);
      LegalEntryLines(entries[1..], indent, width);
    }
  }

  lemma {:induction false} BreaksConcat(a: string, b: string)
    requires NoBreaks(a, STR_BREAKS) && NoBreaks(b, STR_BREAKS)
    ensures NoBreaks(a + b, STR_BREAKS)
  {}

  lemma {:induction false} PrintedHasNoBreaks(line: Line)
    requires LegalLine(line)
    ensures NoBreaks(Print(line), STR_BREAKS)
  {
    match line
    case More(indent, text) => BreaksConcat(Spaces(indent), text);
    case Pair(indent, key, value) =>
      BreaksConcat(Spaces(indent), key);
      BreaksConcat(Spaces(indent) + key, ":");
      if value != "" {
        BreaksConcat(" ", value);
        BreaksConcat(Spaces(indent) + key + ":", " " + value);
      } else {
        assert Print(line) == Spaces(indent) + key + ":";
      }
  }

  /** The indented text of a map. */
  function LayoutText(entries: seq<Entry>, width: nat): string {
    var lines := LayEntries(entries, 0, width);
    JoinLines(seq(|lines|, i requires 0 <= i < |lines| => Print(lines[i])), '\n')
  }

  /**
   Round trip: for every legal tree and every indent width, parsing the indented
   text gives back exactly the tree's maps, lists and multi-line texts, in order.
   */
  lemma {:induction false} ParseRoundTrip(entries: seq<Entry>, width: nat)
    requires width >= 1 && Legal(Branch(entries))
    ensures Unfold(Run(START, ClassifyAll(StrLines(LayoutText(entries, width)))).arena, 0) == Meaning(Branch(entries))
  {
    var lines := LayEntries(entries, 0, width);
    var printed := seq(|lines|, i requires 0 <= i < |lines| => Print(lines[i]));
    LegalEntryLines(entries, 0, width);
    forall i | 0 <= i < |lines|
      ensures NoBreaks(printed[i], STR_BREAKS) && Classify(printed[i]) == lines[i]
    {
      assert lines[i] in lines;
      PrintedHasNoBreaks(lines[i]);
      PrintedLineRead(lines[i]);
    }
    SplitJoined(printed, STR_BREAKS, '\n', '\r');
    assert ClassifyAll(printed) == lines;
    LayoutRoundTrip(entries, width);
  }
}
