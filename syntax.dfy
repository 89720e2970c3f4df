/** The syntax tree the external parser hands to the lowering engine, and the
    two helpers that turn a node into text: its source code and the
    identifier of the operation built for it. */
module Syntax {
  import opened Outcomes

  /** A zero-based (row, column) position. */
  datatype Point = Point(row: nat, column: nat)

  /** One parse-tree node: its kind (`"identifier"`, `"call"`,
      `"parenthesized_expression"`, ...), its children in order (punctuation
      tokens included), its span in the source and the position it starts at. */
  datatype Node = Node(kind: string, children: seq<Node>, startByte: nat, endByte: nat, startPoint: Point)

  /** Python's `s[a:b]` for non-negative bounds: both bounds are clamped to
      the length of `s`, and a reversed range is empty. */
  function Slice(s: string, a: nat, b: nat): (r: string)
    ensures a <= b <= |s| ==> r == s[a..b]
    ensures a <= |s| < b ==> r == s[a..]
    ensures b <= a || |s| <= a ==> r == []
  {
    var lo := if a < |s| then a else |s|;
    var hi := if b < |s| then b else |s|;
    if lo < hi then s[lo..hi] else []
  }

  /** `node_source_code`: the text a node spans. */
  function NodeSourceCode(src: string, n: Node): (r: string)
    ensures n.startByte <= n.endByte <= |src| ==> r == src[n.startByte..n.endByte]
    ensures |r| <= |src|
  {
    Slice(src, n.startByte, n.endByte)
  }

  function Digit(d: nat): (c: char)
    requires d < 10
    ensures '0' <= c <= '9'
  {
    "0123456789"[d]
  }

  function DigitValue(c: char): nat
    requires '0' <= c <= '9'
  {
    c as int - '0' as int
  }

  /** `str(n)` for a non-negative integer: its decimal digits. */
  function Decimal(n: nat): (s: string)
    ensures |s| > 0
    ensures forall i | 0 <= i < |s| :: '0' <= s[i] <= '9'
  {
    if n < 10 then [Digit(n)] else Decimal(n / 10) + [Digit(n % 10)]
  }

  /** The number a string of decimal digits denotes (`int(s)`). */
  function DecimalValue(s: string): nat
    requires forall i | 0 <= i < |s| :: '0' <= s[i] <= '9'
  {
    if s == [] then 0 else DecimalValue(s[..|s| - 1]) * 10 + DigitValue(s[|s| - 1])
  }

  /** Writing a number in decimal loses nothing: reading it back gives the number. */
  lemma {:induction false} DecimalRoundTrip(n: nat)
    ensures DecimalValue(Decimal(n)) == n
  {
    var s := Decimal(n);
    if n >= 10 {
      DecimalRoundTrip(n / 10);
      assert s[..|s| - 1] == Decimal(n / 10);
    }
  }

  /** `node_to_identifier`: `"(" + source + ") " + line + ":" + column`, with
      line and column counted from one. */
  function NodeToIdentifier(src: string, n: Node): (r: string)
    ensures |r| > |NodeSourceCode(src, n)| + 1
    ensures r[..|NodeSourceCode(src, n)| + 1] == "(" + NodeSourceCode(src, n)
  {
    "(" + NodeSourceCode(src, n) + ") " + Decimal(n.startPoint.row + 1) + ":" + Decimal(n.startPoint.column + 1)
  }

  /** The line and column an identifier ends with are the node's one-based
      start position, read back exactly. */
  lemma NodeToIdentifierPosition(src: string, n: Node)
    ensures var code := NodeSourceCode(src, n);
            var line := Decimal(n.startPoint.row + 1);
            var column := Decimal(n.startPoint.column + 1);
            NodeToIdentifier(src, n) == "(" + code + ") " + line + ":" + column
            && DecimalValue(line) == n.startPoint.row + 1
            && DecimalValue(column) == n.startPoint.column + 1
  {
    DecimalRoundTrip(n.startPoint.row + 1);
    DecimalRoundTrip(n.startPoint.column + 1);
  }

  function MaxOf(s: seq<nat>): (m: nat)
    ensures forall i | 0 <= i < |s| :: s[i] <= m
  {
    if s == [] then 0
    else
      var rest := MaxOf(s[1..]);
      assert forall i | 1 <= i < |s| :: s[i] == s[1..][i - 1];
      if s[0] < rest then rest else s[0]
  }

  /** The height of a tree, the measure the recursive lowering decreases. */
  function Height(n: Node): (h: nat)
    ensures forall i | 0 <= i < |n.children| :: Height(n.children[i]) < h
  {
    var heights := seq(|n.children|, i requires 0 <= i < |n.children| => Height(n.children[i]));
    assert forall i | 0 <= i < |n.children| :: heights[i] == Height(n.children[i]);
    1 + MaxOf(heights)
  }

  /** The `while node.type == 'parenthesized_expression'` loop of
      `parse_expression`: the node inside the parentheses, to any depth; an
      IndexError when a parenthesized node has no second child. */
  function StripParens(n: Node): (r: Outcome<Node>)
    ensures r.Normal? ==> r.value.kind != "parenthesized_expression" && Height(r.value) <= Height(n)
    ensures r.Raised? ==> r.exc == IndexError
    ensures n.kind != "parenthesized_expression" ==> r == Normal(n)
  {
    if n.kind != "parenthesized_expression" then Normal(n)
    else if |n.children| < 2 then Raised(IndexError)
    else StripParens(n.children[1])
  }

  /** `n` is `x` wrapped in `depth` pairs of parentheses. */
  ghost predicate Parenthesized(n: Node, x: Node, depth: nat)
    decreases depth
  {
    if depth == 0 then n == x
    else n.kind == "parenthesized_expression" && |n.children| >= 2 && Parenthesized(n.children[1], x, depth - 1)
  }

  /** However deeply a node is parenthesized, stripping finds the same node
      as stripping the node itself. */
  lemma {:induction false} StripParensNested(n: Node, x: Node, depth: nat)
    requires Parenthesized(n, x, depth)
    ensures StripParens(n) == StripParens(x)
    decreases depth
  {
    if depth > 0 {
      StripParensNested(n.children[1], x, depth - 1);
    }
  }
}
