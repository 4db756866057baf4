/**
 The indentation parser for MSE set text (apps/cards/mse.py, `parse_mse_set`).

 The nested dictionaries are shared and changed in place while the stack points
 into them, so they live in an arena: a container is named by its index, and a
 dictionary value refers to its container.
 */
module MseParser {
  import opened Wrappers
  import opened PyText

  datatype Node = Text(text: string) | Ref(container: nat) | Many(items: seq<Node>)

  /** An insertion-ordered dictionary. */
  type Container = seq<(string, Node)>

  /** One level of the stack; "" stands for a missing last key, as both are falsy. */
  datatype Frame = Frame(indent: int, container: nat, lastKey: string)

  datatype State = State(arena: seq<Container>, stack: seq<Frame>)

  const START: State := State([[]], [Frame(-1, 0, "")])

  // ----- Reading one line --------------------------------------------------

  datatype Line =
    | Skip
    | More(indent: nat, text: string)
    | Pair(indent: nat, key: string, value: string)

  const TAB_SIZE: nat := 4

  function Spaces(n: nat): string { seq(n, _ => ' ') }

  /** `expandtabs(4)`, from column `column` on. */
  function ExpandTabs(s: string, column: nat): string {
    if s == "" then ""
    else if s[0] == '\t' then
      var width := TAB_SIZE - column % TAB_SIZE;
      Spaces(width) + ExpandTabs(s[1..], column + width)
    else [s[0]] + ExpandTabs(s[1..], column + 1)
  }

  function Classify(raw: string): Line {
    var line := RStrip(ExpandTabs(raw, 0));
    var stripped := LStrip(line);
    LStripFacts(line);
    if line == "" || stripped == "" || stripped[0] == '#' then Skip
    else
      var indent := |line| - |stripped|;
      var colon := IndexOf(stripped, ':');
      if colon == |stripped| then More(indent, stripped)
      else Pair(indent, Strip(stripped[..colon]), LStrip(stripped[colon + 1..]))
  }

  // ----- The effect of one line --------------------------------------------

  function PopTo(stack: seq<Frame>, indent: int): (r: seq<Frame>)
    ensures r <= stack
  {
    if stack != [] && indent <= stack[|stack| - 1].indent then PopTo(stack[..|stack| - 1], indent) else stack
  }

  function Lookup(c: Container, key: string): (r: Option<nat>)
    ensures r.Some? ==> r.value < |c| && c[r.value].0 == key
    ensures r.None? ==> forall i :: 0 <= i < |c| ==> c[i].0 != key
  {
    if c == [] then None
    else if c[|c| - 1].0 == key then Some(|c| - 1)
    else Lookup(c[..|c| - 1], key)
  }

  /** `append_value`: a repeated key collects its values in a list. */
  function AppendValue(c: Container, key: string, item: Node): Container {
    match Lookup(c, key)
    case None => c + [(key, item)]
    case Some(i) =>
      var node := if c[i].1.Many? then Many(c[i].1.items + [item]) else Many([c[i].1, item]);
      c[i := (key, node)]
  }

  /** A continuation line is added to the last value of `key` when that is a text. */
  function Continue(c: Container, key: string, more: string): Container {
    match Lookup(c, key)
    case None => c
    case Some(i) =>
      match c[i].1
      case Text(t) => c[i := (key, Text(t + "\n" + more))]
      case Ref(_) => c
      case Many(items) =>
        if items != [] && items[|items| - 1].Text?
        then c[i := (key, Many(items[|items| - 1 := Text(items[|items| - 1].text + "\n" + more)]))]
        else c
  }

  /** The bottom of the stack is the root, and every level points at a live container. */
  predicate Live(st: State) {
    && st.stack != [] && st.stack[0].indent == -1
    && forall i :: 0 <= i < |st.stack| ==> st.stack[i].container < |st.arena|
  }

  lemma {:induction false} PopKeepsBottom(stack: seq<Frame>, indent: int)
    requires stack != [] && stack[0].indent == -1 && indent >= 0
    ensures var popped := PopTo(stack, indent);
            popped != [] && popped <= stack && popped[|popped| - 1].indent < indent
    decreases |stack|
  {
    if indent <= stack[|stack| - 1].indent { PopKeepsBottom(stack[..|stack| - 1], indent); }
  }

  function Apply(st: State, line: Line): (st': State)
    requires Live(st)
    ensures Live(st')
  {
    match line
    case Skip => st
    case More(indent, text) =>
      PopKeepsBottom(st.stack, indent);
      var stack := PopTo(st.stack, indent);
      var top := stack[|stack| - 1];
      if top.lastKey == "" then st.(stack := stack)
      else State(st.arena[top.container := Continue(st.arena[top.container], top.lastKey, text)], stack)
    case Pair(indent, key, value) =>
      PopKeepsBottom(st.stack, indent);
      var stack := PopTo(st.stack, indent);
      var top := stack[|stack| - 1];
      var parent := st.arena[top.container];
      if value == "" then
        var child := |st.arena|;
        State(st.arena[top.container := AppendValue(parent, key, Ref(child))] + [[]],
              stack + [Frame(indent, child, "")])
      else
        State(st.arena[top.container := AppendValue(parent, key, Text(value))],
              stack[|stack| - 1 := top.(lastKey := key)])
  }

  function Run(st: State, lines: seq<Line>): (st': State)
    requires Live(st)
    ensures Live(st')
  {
    if lines == [] then st else Apply(Run(st, lines[..|lines| - 1]), lines[|lines| - 1])
  }

  predicate Increasing(stack: seq<Frame>) {
    forall i, j :: 0 <= i < j < |stack| ==> stack[i].indent < stack[j].indent
  }

  /**
   Whatever the text, after any prefix of its lines the stack is non-empty, its
   indents grow strictly from -1, and every level points at a live container.
   */
  lemma {:induction false} StackAlwaysOk(lines: seq<Line>)
    ensures Live(Run(START, lines)) && Increasing(Run(START, lines).stack)
  {
    if lines != [] {
      StackAlwaysOk(lines[..|lines| - 1]);
      var st, line := Run(START, lines[..|lines| - 1]), lines[|lines| - 1];
      if !line.Skip? { PopKeepsBottom(st.stack, line.indent); }
    }
  }

  function ClassifyAll(raw: seq<string>): (r: seq<Line>)
    ensures |r| == |raw|
  {
    seq(|raw|, i requires 0 <= i < |raw| => Classify(raw[i]))
  }

  // ----- The dictionaries the arena stands for -----------------------------

  datatype Value = VText(text: string) | VMap(entries: seq<(string, Value)>) | VList(items: seq<Value>)

  function UnfoldNode(arena: seq<Container>, above: nat, node: Node): Value
    decreases |arena| - above, 1, node
  {
    match node
    case Text(t) => VText(t)
    case Ref(j) => if above < j < |arena| then Unfold(arena, j) else VText("")
    case Many(items) => VList(UnfoldNodes(arena, above, items))
  }

  function UnfoldNodes(arena: seq<Container>, above: nat, nodes: seq<Node>): seq<Value>
    decreases |arena| - above, 1, nodes
  {
    if nodes == [] then [] else [UnfoldNode(arena, above, nodes[0])] + UnfoldNodes(arena, above, nodes[1..])
  }

  function UnfoldEntries(arena: seq<Container>, above: nat, c: Container): seq<(string, Value)>
    decreases |arena| - above, 2, |c|
  {
    if c == [] then []
    else
      UnfoldEntries(arena, above, c[..|c| - 1]) +
      [(c[|c| - 1].0, UnfoldNode(arena, above, c[|c| - 1].1))]
  }

  /** The dictionary container `i` stands for. */
  function Unfold(arena: seq<Container>, i: nat): Value
    requires i < |arena|
    decreases |arena| - i, 3
  {
    VMap(UnfoldEntries(arena, i, arena[i]))
  }

  // ----- The parser --------------------------------------------------------

  method PopToIndent(stack: seq<Frame>, indent: nat) returns (popped: seq<Frame>)
    ensures popped == PopTo(stack, indent)
  {
    popped := stack;
    while popped != [] && indent <= popped[|popped| - 1].indent
      invariant PopTo(popped, indent) == PopTo(stack, indent)
    {
      popped := popped[..|popped| - 1];
    }
  }

  /** `parse_mse_set` */
  method ParseMseSet(text: string) returns (root: Value)
    ensures root == Unfold(Run(START, ClassifyAll(StrLines(text))).arena, 0)
  {
    var arena, stack := START.arena, START.stack;
    var lines := StrLines(text);
    for i := 0 to |lines|
      invariant State(arena, stack) == Run(START, ClassifyAll(lines[..i])) && arena != []
    {
      ghost var before := State(arena, stack);
      assert ClassifyAll(lines[..i + 1])[..i] == ClassifyAll(lines[..i]);
      assert Run(START, ClassifyAll(lines[..i + 1])) == Apply(before, Classify(lines[i]));
      var line := Classify(lines[i]);
      if line.Skip? { continue; }
      PopKeepsBottom(stack, line.indent);
      stack := PopToIndent(stack, line.indent);
      var top := stack[|stack| - 1];
      if line.More? {
        if top.lastKey == "" { continue; }
        arena := arena[top.container := Continue(arena[top.container], top.lastKey, line.text)];
      } else if line.value == "" {
        var child := |arena|;
        arena := arena[top.container := AppendValue(arena[top.container], line.key, Ref(child))] + [[]];
        stack := stack + [Frame(line.indent, child, "")];
      } else {
        arena := arena[top.container := AppendValue(arena[top.container], line.key, Text(line.value))];
        stack := stack[|stack| - 1 := top.(lastKey := line.key)];
      }
    }
    assert lines[..|lines|] == lines;
    root := Unfold(arena, 0);
  }
}
