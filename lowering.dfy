/** Expression and function lowering, as functions from the world before a
    call to the world after it and the call's outcome. */
module Lowering {
  import opened Outcomes
  import opened Syntax
  import opened Graph
  import PyDict

  /** The node kinds lowered to an interned literal. */
  predicate IsLiteralKind(k: string) {
    k == "integer" || k == "float" || k == "true" || k == "false" || k == "none" || k == "string"
  }

  /** The node kinds lowered to one operation applying an operator. */
  predicate IsApplyKind(k: string) {
    || k == "call" || k == "unary_operator" || k == "not_operator"
    || k == "binary_operator" || k == "boolean_operator" || k == "comparison_operator"
  }

  /** The name of the carrier an applying node produces: the assignment
      target when one is given and not empty (Python's truth test), the
      operation's identifier otherwise. */
  function OutputName(src: string, n: Node, target: Option<string>): (r: string)
    ensures r != []
    ensures target.Some? && target.value != "" ==> r == target.value
    ensures target.None? || target.value == "" ==> r == NodeToIdentifier(src, n)
  {
    if target.Some? && target.value != "" then target.value else NodeToIdentifier(src, n)
  }

  ghost predicate CarrierOf(w: World, op: OperatorId, c: CarrierId) {
    c < |w.carriers| && w.carriers[c].operator == op
  }

  /** A lowering outcome that names a carrier names one of `op`'s. */
  ghost predicate LoweredIn(w: World, op: OperatorId, v: Outcome<Option<CarrierId>>) {
    v.Normal? && v.value.Some? ==> CarrierOf(w, op, v.value.value)
  }

  ghost predicate Scope(w: World, op: OperatorId, p: OperationId) {
    Valid(w) && op < |w.operators| && p < |w.operations| && w.operations[p].operator == op
  }

  /** `parse_expression(operator, node, output_carrier_identifier)`: strips
      parentheses, then lowers what is inside. */
  function Lower(w: World, src: string, op: OperatorId, node: Node, target: Option<string>)
    : (r: (World, Outcome<Option<CarrierId>>))
    requires Valid(w) && op < |w.operators|
    ensures Valid(r.0) && OnlyAdds(w, r.0) && LoweredIn(r.0, op, r.1)
    decreases Height(node), 2, 0
  {
    match StripParens(node)
    case Raised(e) => (w, Raised(e))
    case Normal(n) => LowerStripped(w, src, op, n, target)
  }

  /** The branches of `parse_expression` on a node that is not
      parenthesized. A kind it does not list gives `None`. */
  function LowerStripped(w: World, src: string, op: OperatorId, n: Node, target: Option<string>)
    : (r: (World, Outcome<Option<CarrierId>>))
    requires Valid(w) && op < |w.operators|
    ensures Valid(r.0) && OnlyAdds(w, r.0) && LoweredIn(r.0, op, r.1)
    decreases Height(n), 1, 0
  {
    if IsLiteralKind(n.kind) then
      var (w1, c) := ConstantToCarrier(w, op, Literal(NodeSourceCode(src, n)));
      (w1, Normal(Some(c)))
    else if n.kind == "identifier" then
      var name := NodeSourceCode(src, n);
      if name in w.operators[op].carriers then
        assert OperatorOk(w, op);
        (w, Normal(Some(w.operators[op].carriers[name])))
      else
        (w, Raised(KeyError(name)))
    else if IsApplyKind(n.kind) then LowerApply(w, src, op, n, target)
    else
      (w, Normal(None))
  }

  /** The applying branch: a new operation named after the node, its
      operands, then the operator applied and the output produced. */
  function LowerApply(w: World, src: string, op: OperatorId, n: Node, target: Option<string>)
    : (r: (World, Outcome<Option<CarrierId>>))
    requires Valid(w) && op < |w.operators| && IsApplyKind(n.kind)
    ensures Valid(r.0) && OnlyAdds(w, r.0) && LoweredIn(r.0, op, r.1)
    ensures r.1 != Normal(None)
    decreases Height(n), 0, 2
  {
    var (w1, p) := NewOperation(w, op, NodeToIdentifier(src, n));
    var (w2, applied) := LowerOperands(w1, src, op, p, n);
    OnlyAddsPreserves(w, w1, p);
    PreservesTransitive(w, w1, w2, p);
    match applied
    case Raised(e) => (w2, Raised(e))
    case Normal(sym) =>
      var (w3, c) := Apply(w2, op, p, NodeSourceCode(src, sym), OutputName(src, n, target));
      PreservesTransitive(w, w2, w3, p);
      (w3, Normal(Some(c)))
  }

  /** `CarrierBinding(parse_expression(...), operation, operand, 'input')`:
      an exception from the lowering propagates, and `None` in place of a
      carrier raises an AttributeError. */
  function BindInput(w: World, v: Outcome<Option<CarrierId>>, op: OperatorId, p: OperationId, operand: string)
    : (r: (World, Outcome<()>))
    requires Scope(w, op, p) && LoweredIn(w, op, v)
    ensures Valid(r.0) && Preserves(w, r.0, p)
    ensures r.1 == match v
                   case Raised(e) => Raised(e)
                   case Normal(None) => Raised(AttributeError)
                   case Normal(Some(_)) => Normal(())
    ensures r.1.Raised? ==> r.0 == w
    ensures OperandsOf(r.0, p) == OperandsOf(w, p) + (if r.1.Normal? then {operand} else {})
  {
    match v
    case Raised(e) => (w, Raised(e))
    case Normal(None) => (w, Raised(AttributeError))
    case Normal(Some(c)) =>
      var w1 := Bind(w, c, p, operand, Input);
      BindFresh(w, w, p, c, p, operand, Input);
      OperandsOfAppend(w, w1, CarrierBinding(c, p, operand), p);
      (w1, Normal(()))
  }

  /** The keywords of the keyword arguments from position `i` on. */
  function KeywordsFrom(src: string, args: seq<Node>, i: nat): set<string>
    decreases |args| - i
  {
    if i >= |args| then {}
    else
      (if args[i].kind == "keyword_argument" && |args[i].children| >= 3
       then {NodeSourceCode(src, args[i].children[0])} else {})
      + KeywordsFrom(src, args, i + 1)
  }

  /** The operands under which an applying node binds its inputs. */
  function InputOperandNames(src: string, n: Node): set<string> {
    if n.kind == "call" then
      if |n.children| >= 2 then KeywordsFrom(src, n.children[1].children, 0) else {}
    else if n.kind == "unary_operator" || n.kind == "not_operator" then {"input"}
    else {"inputL", "inputR"}
  }

  /** The child naming the operator to apply: the callee or the unary
      symbol first, the infix symbol second. */
  function OperatorNode(n: Node): (r: Node)
    requires |n.children| >= 2
    ensures n.kind == "call" || n.kind == "unary_operator" || n.kind == "not_operator" ==> r == n.children[0]
    ensures IsApplyKind(n.kind) && !(n.kind == "call" || n.kind == "unary_operator" || n.kind == "not_operator")
            ==> r == n.children[1]
  {
    if n.kind == "call" || n.kind == "unary_operator" || n.kind == "not_operator"
    then n.children[0] else n.children[1]
  }

  /** The operands of an applying node: for a call, the keyword arguments;
      for a unary or `not` node, `input`; otherwise `inputL` and `inputR`.
      On success gives the node naming the operator to apply. */
  function LowerOperands(w: World, src: string, op: OperatorId, p: OperationId, n: Node)
    : (r: (World, Outcome<Node>))
    requires Scope(w, op, p)
    ensures Valid(r.0) && Preserves(w, r.0, p)
    ensures r.1.Normal? ==> |n.children| >= 2 && r.1.value == OperatorNode(n)
    ensures r.1.Normal? ==> OperandsOf(r.0, p) == OperandsOf(w, p) + InputOperandNames(src, n)
    decreases Height(n), 0, 1
  {
    if |n.children| == 0 then (w, Raised(IndexError))
    else if n.kind == "call" then
      if |n.children| < 2 then (w, Raised(IndexError))
      else
        var (w1, out) := LowerArguments(w, src, op, p, n.children[1], 0);
        (w1, if out.Raised? then Raised(out.exc) else Normal(n.children[0]))
    else if n.kind == "unary_operator" || n.kind == "not_operator" then
      if |n.children| < 2 then (w, Raised(IndexError))
      else
        var (w1, out) := LowerInput(w, src, op, p, n.children[1], "input");
        (w1, if out.Raised? then Raised(out.exc) else Normal(n.children[0]))
    else if |n.children| < 2 then (w, Raised(IndexError))
    else
      var (w1, out) := LowerInfix(w, src, op, p, n);
      (w1, if out.Raised? then Raised(out.exc) else Normal(n.children[1]))
  }

  /** The operands of an infix node: the left one under `inputL`, then
      (when there is a third child) the right one under `inputR`. */
  function LowerInfix(w: World, src: string, op: OperatorId, p: OperationId, n: Node)
    : (r: (World, Outcome<()>))
    requires Scope(w, op, p) && |n.children| >= 2
    ensures Valid(r.0) && Preserves(w, r.0, p)
    ensures r.1.Normal? ==> |n.children| >= 3 && OperandsOf(r.0, p) == OperandsOf(w, p) + {"inputL", "inputR"}
    decreases Height(n), 0, 0
  {
    var (w1, outL) := LowerInput(w, src, op, p, n.children[0], "inputL");
    if outL.Raised? then (w1, outL)
    else if |n.children| < 3 then (w1, Raised(IndexError))
    else
      var (w2, outR) := LowerInput(w1, src, op, p, n.children[2], "inputR");
      PreservesTransitive(w, w1, w2, p);
      (w2, outR)
  }

  /** `CarrierBinding(parse_expression(operator, e), operation, operand,
      'input')`: lowers `e` in the same operator and binds the result as an
      input of `p`. */
  function LowerInput(w: World, src: string, op: OperatorId, p: OperationId, e: Node, operand: string)
    : (r: (World, Outcome<()>))
    requires Scope(w, op, p)
    ensures Valid(r.0) && Preserves(w, r.0, p)
    ensures r.1.Normal? ==> OperandsOf(r.0, p) == OperandsOf(w, p) + {operand}
    decreases Height(e), 2, 1
  {
    var (w1, v) := Lower(w, src, op, e, None);
    OnlyAddsPreserves(w, w1, p);
    OperandsOfPreserved(w, w1, |w.operations|, p);
    var (w2, out) := BindInput(w1, v, op, p, operand);
    PreservesTransitive(w, w1, w2, p);
    (w2, out)
  }

  /** The `for argument in node.children[1].children` loop of a call, from
      argument `i` on: keyword arguments are lowered and bound under their
      keyword, every other argument is skipped. */
  function LowerArguments(w: World, src: string, op: OperatorId, p: OperationId, args: Node, i: nat)
    : (r: (World, Outcome<()>))
    requires Scope(w, op, p) && i <= |args.children|
    ensures Valid(r.0) && Preserves(w, r.0, p)
    ensures r.1.Normal? ==> OperandsOf(r.0, p) == OperandsOf(w, p) + KeywordsFrom(src, args.children, i)
    decreases Height(args), 3, |args.children| - i
  {
    if i == |args.children| then (w, Normal(()))
    else
      var a := args.children[i];
      if a.kind != "keyword_argument" then LowerArguments(w, src, op, p, args, i + 1)
      else if |a.children| < 3 then (w, Raised(IndexError))
      else
        var (w1, out) := LowerInput(w, src, op, p, a.children[2], NodeSourceCode(src, a.children[0]));
        if out.Raised? then (w1, out)
        else
          var (w2, rest) := LowerArguments(w1, src, op, p, args, i + 1);
          PreservesTransitive(w, w1, w2, p);
          (w2, rest)
  }

  /** `get_or_create_operator` on the operator's name, then its constant
      bound as an input of the operation under `operator`. */
  function BindOperator(w: World, op: OperatorId, p: OperationId, sym: string): (r: World)
    requires Scope(w, op, p)
    ensures Valid(r) && Preserves(w, r, p) && Scope(r, op, p)
    ensures OperationOk(r, p) && r.operations[p].outputBindings == w.operations[p].outputBindings
    ensures var key := "OpConst<" + sym + ">";
            && sym in r.registry
            && key in r.operations[p].inputBindings.entries
            && r.bindings[r.operations[p].inputBindings.entries[key]] .operand == "operator"
    ensures OperandsOf(r, p) == OperandsOf(w, p) + {"operator"}
  {
    var (w1, o) := GetOrCreateOperator(w, sym);
    var (w2, k) := ConstantToCarrier(w1, op, OperatorRef(o));
    OnlyAddsTransitive(w, w1, w2);
    OnlyAddsPreserves(w, w2, p);
    var w3 := Bind(w2, k, p, "operator", Input);
    BindFresh(w, w2, p, k, p, "operator", Input);
    OperandsOfPreserved(w, w2, |w.operations|, p);
    OperandsOfAppend(w2, w3, CarrierBinding(k, p, "operator"), p);
    w3
  }

  /** `CarrierTuft(operator, name)` bound as the operation's output under
      operand `output`. */
  function Produce(w: World, op: OperatorId, p: OperationId, outName: string): (r: (World, CarrierId))
    requires Scope(w, op, p)
    ensures Valid(r.0) && Preserves(w, r.0, p)
    ensures r.1 == |w.carriers| && CarrierOf(r.0, op, r.1)
    ensures p < |r.0.operations| && OperationOk(r.0, p)
    ensures r.0.operations[p].inputBindings == w.operations[p].inputBindings
    ensures var c := r.1;
            var b := |w.bindings|;
            && r.0.bindings == w.bindings + [CarrierBinding(c, p, "output")]
            && r.0.carriers[c].identifier == outName
            && outName in r.0.operators[op].carriers && r.0.operators[op].carriers[outName] == c
            && r.0.carriers[c].sourceBinding == Some(b)
            && outName in r.0.operations[p].outputBindings.entries
            && r.0.operations[p].outputBindings.entries[outName] == b
    ensures OperandsOf(r.0, p) == OperandsOf(w, p) + {"output"}
  {
    var (w1, c) := NewCarrier(w, op, outName);
    OnlyAddsPreserves(w, w1, p);
    var w2 := Bind(w1, c, p, "output", Output);
    BindFresh(w, w1, p, c, p, "output", Output);
    OperandsOfAppend(w1, w2, CarrierBinding(c, p, "output"), p);
    (w2, c)
  }

  /** The end of the applying branch: the operator named `sym` is looked up
      or created in the registry, its constant is bound under `operator`,
      and a new carrier named `outName` is produced under `output`. */
  function Apply(w: World, op: OperatorId, p: OperationId, sym: string, outName: string)
    : (r: (World, CarrierId))
    requires Scope(w, op, p)
    ensures Valid(r.0) && Preserves(w, r.0, p) && Scope(r.0, op, p)
    ensures r.1 >= |w.carriers| && CarrierOf(r.0, op, r.1)
  {
    var w1 := BindOperator(w, op, p, sym);
    var (w2, c) := Produce(w1, op, p, outName);
    PreservesTransitive(w, w1, w2, p);
    (w2, c)
  }

  /** The carrier an applying node produces: a new carrier named `outName`
      whose one producer is operation `p` under operand `output`. */
  lemma ApplyOutput(w: World, op: OperatorId, p: OperationId, sym: string, outName: string, w': World, c: CarrierId)
    requires Scope(w, op, p) && (w', c) == Apply(w, op, p, sym, outName)
    ensures |w'.bindings| > 0 && c >= |w.carriers| && CarrierOf(w', op, c) && OperationOk(w', p)
    ensures w'.carriers[c].identifier == outName
    ensures outName in w'.operators[op].carriers && w'.operators[op].carriers[outName] == c
    ensures w'.carriers[c].sourceBinding.Some?
    ensures w'.carriers[c].sourceBinding.value == |w'.bindings| - 1
    ensures w'.bindings[|w'.bindings| - 1] == CarrierBinding(c, p, "output")
    ensures outName in w'.operations[p].outputBindings.entries
    ensures w'.operations[p].outputBindings.entries[outName] == |w'.bindings| - 1
  {
    var w1 := BindOperator(w, op, p, sym);
    var (w2, c2) := Produce(w1, op, p, outName);
    assert w' == w2 && c == c2;
    var b := |w1.bindings|;
    assert w2.carriers[c2].sourceBinding == Some(b);
    assert |w'.bindings| - 1 == b;
  }

  /** The operator an applying node applies: the registry entry named `sym`,
      whose constant carrier `OpConst<sym>` is an input of `p` under
      operand `operator`. */
  lemma ApplyOperator(w: World, op: OperatorId, p: OperationId, sym: string, outName: string, w': World, c: CarrierId)
    requires Scope(w, op, p) && (w', c) == Apply(w, op, p, sym, outName)
    ensures sym in w'.registry && OperationOk(w', p)
    ensures "OpConst<" + sym + ">" in w'.operations[p].inputBindings.entries
    ensures w'.bindings[w'.operations[p].inputBindings.entries["OpConst<" + sym + ">"]].operand == "operator"
  {
    var w1 := BindOperator(w, op, p, sym);
    assert (w', c) == Produce(w1, op, p, outName);
    var key := "OpConst<" + sym + ">";
    assert w'.bindings[w1.operations[p].inputBindings.entries[key]]
        == w1.bindings[w1.operations[p].inputBindings.entries[key]];
  }

  /** An applying node adds exactly the operands `operator` and `output` to
      its operation beyond those of its inputs. */
  lemma ApplyOperands(w: World, op: OperatorId, p: OperationId, sym: string, outName: string)
    requires Scope(w, op, p)
    ensures OperandsOf(Apply(w, op, p, sym, outName).0, p) == OperandsOf(w, p) + {"operator", "output"}
  {
  }

  // ---------------------------------------------------------------------
  // What one call of `parse_expression` gives, kind by kind

  /** The node kinds `parse_expression` handles once parentheses are gone. */
  predicate Handled(k: string) {
    IsLiteralKind(k) || k == "identifier" || IsApplyKind(k)
  }

  /** However many pairs of parentheses wrap a node, it is lowered exactly
      as the node itself. */
  lemma {:induction false} LowerParenthesized(w: World, src: string, op: OperatorId, n: Node, x: Node, depth: nat, target: Option<string>)
    requires Valid(w) && op < |w.operators| && Parenthesized(n, x, depth)
    ensures Lower(w, src, op, n, target) == Lower(w, src, op, x, target)
  {
    StripParensNested(n, x, depth);
  }

  /** An identifier changes nothing and gives the operator's carrier of that
      name; a name the operator has no carrier for raises a KeyError naming
      it. */
  lemma LowerIdentifier(w: World, src: string, op: OperatorId, n: Node, target: Option<string>)
    requires Valid(w) && op < |w.operators| && n.kind == "identifier"
    ensures Lower(w, src, op, n, target).0 == w
    ensures var name := NodeSourceCode(src, n);
            var v := Lower(w, src, op, n, target).1;
            && (v.Raised? <==> name !in w.operators[op].carriers)
            && (v.Raised? ==> v.exc == KeyError(name))
            && (v.Normal? ==> v.value.Some? && CarrierOf(w, op, v.value.value)
                              && w.carriers[v.value.value].identifier == name)
            && (v.Normal? ==> v == Normal(Some(w.operators[op].carriers[name])))
  {
    assert OperatorOk(w, op);
  }

  /** A literal gives the operator's interned `Literal<text>` carrier and
      ignores the assignment target: `x = 1` creates no carrier named `x`. */
  lemma LowerLiteral(w: World, src: string, op: OperatorId, n: Node, t1: Option<string>, t2: Option<string>)
    requires Valid(w) && op < |w.operators| && IsLiteralKind(n.kind)
    ensures Lower(w, src, op, n, t1) == Lower(w, src, op, n, t2)
    ensures var r := Lower(w, src, op, n, t1);
            && r.1.Normal? && r.1.value.Some? && CarrierOf(r.0, op, r.1.value.value)
            && r.0.carriers[r.1.value.value].identifier == "Literal<" + NodeSourceCode(src, n) + ">"
    ensures var r := Lower(w, src, op, n, t1);
            var id := "Literal<" + NodeSourceCode(src, n) + ">";
            && r.1.Normal? && r.1.value.Some?
            && id in r.0.operators[op].carriers && r.0.operators[op].carriers[id] == r.1.value.value
  {
  }

  /** `parse_expression` gives `None` exactly for a node of a kind it does
      not handle (inside any parentheses), and then changes nothing. */
  lemma LowerNone(w: World, src: string, op: OperatorId, node: Node, target: Option<string>)
    requires Valid(w) && op < |w.operators|
    ensures var s := StripParens(node);
            Lower(w, src, op, node, target).1 == Normal(None) <==> s.Normal? && !Handled(s.value.kind)
    ensures Lower(w, src, op, node, target).1 == Normal(None) ==> Lower(w, src, op, node, target).0 == w
  {
    match StripParens(node)
    case Raised(_) =>
    case Normal(_) =>
  }

  /** An applying node is not parenthesized, so it is lowered by the
      applying branch directly. */
  lemma LowerIsApply(w: World, src: string, op: OperatorId, n: Node, target: Option<string>)
    requires Valid(w) && op < |w.operators| && IsApplyKind(n.kind)
    ensures Lower(w, src, op, n, target) == LowerApply(w, src, op, n, target)
  {
    assert !IsLiteralKind(n.kind) && n.kind != "identifier";
    assert LowerStripped(w, src, op, n, target) == LowerApply(w, src, op, n, target);
    assert StripParens(n) == Normal(n);
  }

  /** The steps of the applying branch when it gives a carrier: the new
      operation, its operands, and the operator applied. */
  lemma LowerAppliedParts(w: World, src: string, op: OperatorId, n: Node, target: Option<string>, w': World, c: CarrierId)
    returns (w1: World, w2: World, sym: Node)
    requires Valid(w) && op < |w.operators| && IsApplyKind(n.kind)
    requires (w', Normal(Some(c))) == Lower(w, src, op, n, target)
    ensures (w1, |w.operations|) == NewOperation(w, op, NodeToIdentifier(src, n))
    ensures Scope(w1, op, |w.operations|)
    ensures (w2, Normal(sym)) == LowerOperands(w1, src, op, |w.operations|, n)
    ensures Scope(w2, op, |w.operations|)
    ensures (w', c) == Apply(w2, op, |w.operations|, NodeSourceCode(src, sym), OutputName(src, n, target))
  {
    LowerIsApply(w, src, op, n, target);
    var p;
    w1, p := NewOperation(w, op, NodeToIdentifier(src, n)).0, |w.operations|;
    var applied;
    w2, applied := LowerOperands(w1, src, op, p, n).0, LowerOperands(w1, src, op, p, n).1;
    sym := applied.value;
  }

  /** An applying node that lowers without an exception creates the
      operation `p` of the operator, named after the node's text and
      position; the operator it applies is in the registry under the name
      the node gives it, and that operator's constant is an input of `p`
      under operand `operator`. */
  lemma LowerAppliedOperation(w: World, src: string, op: OperatorId, n: Node, target: Option<string>, w': World, c: CarrierId)
    requires Valid(w) && op < |w.operators| && IsApplyKind(n.kind)
    requires (w', Normal(Some(c))) == Lower(w, src, op, n, target)
    ensures |n.children| >= 2 && NodeSourceCode(src, OperatorNode(n)) in w'.registry
    ensures var p := |w.operations|;
            && p < |w'.operations| && w'.operations[p].operator == op
            && w'.operations[p].identifier == NodeToIdentifier(src, n)
    ensures var p := |w.operations|;
            var key := "OpConst<" + NodeSourceCode(src, OperatorNode(n)) + ">";
            && p < |w'.operations| && OperationOk(w', p)
            && key in w'.operations[p].inputBindings.entries
            && w'.bindings[w'.operations[p].inputBindings.entries[key]].operand == "operator"
  {
    var w1, w2, applied := LowerAppliedParts(w, src, op, n, target, w', c);
    ApplyOperator(w2, op, |w.operations|, NodeSourceCode(src, applied), OutputName(src, n, target), w', c);
  }

  /** The operands of that operation are exactly the node's inputs plus
      `operator` and `output`. */
  lemma LowerAppliedOperands(w: World, src: string, op: OperatorId, n: Node, target: Option<string>, w': World, c: CarrierId)
    requires Valid(w) && op < |w.operators| && IsApplyKind(n.kind)
    requires (w', Normal(Some(c))) == Lower(w, src, op, n, target)
    ensures OperandsOf(w', |w.operations|) == InputOperandNames(src, n) + {"operator", "output"}
  {
    var w1, w2, applied := LowerAppliedParts(w, src, op, n, target, w', c);
    OperandsOfNewOperation(w, src, op, n, w1, w2, applied);
    ApplyOperands(w2, op, |w.operations|, NodeSourceCode(src, applied), OutputName(src, n, target));
  }

  /** The operation an applying node creates has, once its inputs are
      bound, exactly the operands of those inputs. */
  lemma OperandsOfNewOperation(w: World, src: string, op: OperatorId, n: Node, w1: World, w2: World, sym: Node)
    requires Valid(w) && op < |w.operators|
    requires (w1, |w.operations|) == NewOperation(w, op, NodeToIdentifier(src, n))
    requires Scope(w1, op, |w.operations|)
    requires (w2, Normal(sym)) == LowerOperands(w1, src, op, |w.operations|, n)
    ensures OperandsOf(w2, |w.operations|) == InputOperandNames(src, n)
  {
    NewOperationUnbound(w, op, NodeToIdentifier(src, n));
  }

  /** The carrier an applying node gives is new, named after the assignment
      target (or, without one, after the operation), and produced by the
      node's operation under operand `output`. */
  lemma LowerAppliedOutput(w: World, src: string, op: OperatorId, n: Node, target: Option<string>, w': World, c: CarrierId)
    requires Valid(w) && op < |w.operators| && IsApplyKind(n.kind)
    requires (w', Normal(Some(c))) == Lower(w, src, op, n, target)
    ensures CarrierOf(w', op, c) && c >= |w.carriers|
    ensures w'.carriers[c].identifier == OutputName(src, n, target)
    ensures w'.carriers[c].sourceBinding.Some? && w'.carriers[c].sourceBinding.value < |w'.bindings|
    ensures w'.bindings[w'.carriers[c].sourceBinding.value] == CarrierBinding(c, |w.operations|, "output")
    ensures OutputName(src, n, target) in w'.operators[op].carriers
            && w'.operators[op].carriers[OutputName(src, n, target)] == c
  {
    var w1, w2, applied := LowerAppliedParts(w, src, op, n, target, w', c);
    ApplyOutput(w2, op, |w.operations|, NodeSourceCode(src, applied), OutputName(src, n, target), w', c);
  }

  // ---------------------------------------------------------------------
  // Which carrier is bound under which operand

  /** The identifier of the carrier `parse_expression` gives for an
      expression lowered without a target, read off the syntax alone: the
      interned literal's `Literal<text>`, an identifier's own name, or the
      identifier of the operation an applying node creates. `None` when
      lowering cannot give a carrier. */
  function ExpressionName(src: string, e: Node): Option<string> {
    match StripParens(e)
    case Raised(_) => None
    case Normal(n) => StrippedName(src, n)
  }

  /** The same for an expression without parentheses. */
  function StrippedName(src: string, n: Node): Option<string> {
    if IsLiteralKind(n.kind) then Some("Literal<" + NodeSourceCode(src, n) + ">")
    else if n.kind == "identifier" then Some(NodeSourceCode(src, n))
    else if IsApplyKind(n.kind) then Some(NodeToIdentifier(src, n))
    else None
  }

  /** A carrier that lowering an expression without a target gives is
      named as the expression's syntax says. */
  lemma LowerName(w: World, src: string, op: OperatorId, e: Node, w': World, c: CarrierId)
    requires Valid(w) && op < |w.operators| && (w', Normal(Some(c))) == Lower(w, src, op, e, None)
    ensures CarrierOf(w', op, c)
    ensures ExpressionName(src, e) == Some(w'.carriers[c].identifier)
  {
    var n := StripParens(e).value;
    LowerStrippedName(w, src, op, n, w', c);
  }

  lemma LowerStrippedName(w: World, src: string, op: OperatorId, n: Node, w': World, c: CarrierId)
    requires Valid(w) && op < |w.operators| && n.kind != "parenthesized_expression"
    requires (w', Normal(Some(c))) == LowerStripped(w, src, op, n, None)
    ensures CarrierOf(w', op, c)
    ensures StrippedName(src, n) == Some(w'.carriers[c].identifier)
  {
    if IsLiteralKind(n.kind) {
    } else if n.kind == "identifier" {
      assert OperatorOk(w, op);
    } else {
      assert StripParens(n) == Normal(n);
      LowerAppliedName(w, src, op, n, w', c);
    }
  }

  lemma LowerAppliedName(w: World, src: string, op: OperatorId, n: Node, w': World, c: CarrierId)
    requires Valid(w) && op < |w.operators| && IsApplyKind(n.kind)
    requires (w', Normal(Some(c))) == Lower(w, src, op, n, None)
    ensures CarrierOf(w', op, c)
    ensures StrippedName(src, n) == Some(w'.carriers[c].identifier)
  {
    LowerAppliedOutput(w, src, op, n, None, w', c);
  }

  /** Some binding attaches a carrier named `name` to operation `p` under
      `operand`. */
  ghost predicate BoundAs(w: World, p: OperationId, operand: string, name: string) {
    exists b | 0 <= b < |w.bindings| ::
      && w.bindings[b].operation == p && w.bindings[b].operand == operand
      && w.bindings[b].carrier < |w.carriers| && w.carriers[w.bindings[b].carrier].identifier == name
  }

  /** The carrier of expression `e` is bound to `p` under `operand`. */
  ghost predicate InputBound(w: World, p: OperationId, operand: string, src: string, e: Node) {
    ExpressionName(src, e).Some? && BoundAs(w, p, operand, ExpressionName(src, e).value)
  }

  lemma InputBoundGrows(w: World, w': World, p: OperationId, operand: string, src: string, e: Node)
    requires Grows(w, w') && InputBound(w, p, operand, src, e)
    ensures InputBound(w', p, operand, src, e)
  {
    var b :| 0 <= b < |w.bindings| && w.bindings[b].operation == p && w.bindings[b].operand == operand
             && w.bindings[b].carrier < |w.carriers|
             && w.carriers[w.bindings[b].carrier].identifier == ExpressionName(src, e).value;
    assert w'.bindings[b] == w.bindings[b];
  }

  /** Lowering and binding one input binds exactly the carrier `Lower` gives
      for it, under the operand given, and that carrier is named after the
      expression. */
  lemma LowerInputBinds(w: World, src: string, op: OperatorId, p: OperationId, e: Node, operand: string, w': World)
    requires Scope(w, op, p) && (w', Normal(())) == LowerInput(w, src, op, p, e, operand)
    ensures var v := Lower(w, src, op, e, None);
            && v.1.Normal? && v.1.value.Some?
            && w'.bindings == v.0.bindings + [CarrierBinding(v.1.value.value, p, operand)]
    ensures InputBound(w', p, operand, src, e)
  {
    var (w1, v) := Lower(w, src, op, e, None);
    var c := v.value.value;
    LowerName(w, src, op, e, w1, c);
    OnlyAddsPreserves(w, w1, p);
    assert w' == Bind(w1, c, p, operand, Input);
    var b := |w1.bindings|;
    assert w'.bindings[b] == CarrierBinding(c, p, operand);
    assert w'.carriers[c].identifier == w1.carriers[c].identifier;
  }

  /** The keyword of a keyword argument. */
  function Keyword(src: string, a: Node): string
    requires |a.children| >= 1
  {
    NodeSourceCode(src, a.children[0])
  }

  /** Every keyword argument from position `i` on has its value's carrier
      bound to `p` under its keyword. */
  ghost predicate KeywordsBound(w: World, src: string, p: OperationId, args: seq<Node>, i: nat) {
    forall j | i <= j < |args| && args[j].kind == "keyword_argument" ::
      |args[j].children| >= 3 && InputBound(w, p, Keyword(src, args[j]), src, args[j].children[2])
  }

  /** When the argument loop completes, every keyword argument from `i` on
      has its value's carrier bound under its keyword. */
  lemma {:induction false} LowerArgumentsBind(w: World, src: string, op: OperatorId, p: OperationId, args: Node, i: nat, w': World)
    requires Scope(w, op, p) && i <= |args.children|
    requires LowerArguments(w, src, op, p, args, i).1.Normal? && w' == LowerArguments(w, src, op, p, args, i).0
    ensures KeywordsBound(w', src, p, args.children, i)
    decreases |args.children| - i
  {
    if i < |args.children| {
      var a := args.children[i];
      if a.kind != "keyword_argument" {
        SkipArgument(w, src, op, p, args, i);
        LowerArgumentsBind(w, src, op, p, args, i + 1, w');
      } else {
        var w1 := ArgumentStep(w, src, op, p, args, i);
        LowerArgumentsBind(w1, src, op, p, args, i + 1, w');
        InputBoundGrows(w1, w', p, Keyword(src, a), src, a.children[2]);
      }
    }
  }

  /** Any other argument is skipped. */
  lemma SkipArgument(w: World, src: string, op: OperatorId, p: OperationId, args: Node, i: nat)
    requires Scope(w, op, p) && i < |args.children| && args.children[i].kind != "keyword_argument"
    ensures LowerArguments(w, src, op, p, args, i) == LowerArguments(w, src, op, p, args, i + 1)
  {
  }

  /** One keyword argument with a value: the loop stops on the value's
      exception, and otherwise goes on from the state after the binding. */
  lemma KeywordArgumentStep(w: World, src: string, op: OperatorId, p: OperationId, args: Node, i: nat)
    requires Scope(w, op, p) && i < |args.children| && args.children[i].kind == "keyword_argument"
    requires |args.children[i].children| >= 3
    ensures var a := args.children[i];
            var (w1, out) := LowerInput(w, src, op, p, a.children[2], NodeSourceCode(src, a.children[0]));
            LowerArguments(w, src, op, p, args, i)
              == if out.Raised? then (w1, out) else LowerArguments(w1, src, op, p, args, i + 1)
  {
  }

  /** One keyword argument: its value's carrier is bound under its keyword
      before the loop goes on. */
  lemma ArgumentStep(w: World, src: string, op: OperatorId, p: OperationId, args: Node, i: nat) returns (w1: World)
    requires Scope(w, op, p) && i < |args.children| && args.children[i].kind == "keyword_argument"
    requires LowerArguments(w, src, op, p, args, i).1.Normal?
    ensures |args.children[i].children| >= 3 && Scope(w1, op, p)
    ensures InputBound(w1, p, Keyword(src, args.children[i]), src, args.children[i].children[2])
    ensures LowerArguments(w, src, op, p, args, i) == LowerArguments(w1, src, op, p, args, i + 1)
  {
    var a := args.children[i];
    var out;
    w1, out := LowerInput(w, src, op, p, a.children[2], Keyword(src, a)).0,
               LowerInput(w, src, op, p, a.children[2], Keyword(src, a)).1;
    LowerInputBinds(w, src, op, p, a.children[2], Keyword(src, a), w1);
  }

  /** What the inputs of an applying node are bound as: for a call, each
      keyword argument's value under its keyword; for a unary or `not`
      node, the operand under `input`; for an infix node, the left operand
      under `inputL` and the right one under `inputR`. */
  ghost predicate InputsBound(w: World, src: string, p: OperationId, n: Node) {
    && |n.children| >= 2
    && (n.kind == "call" ==> KeywordsBound(w, src, p, n.children[1].children, 0))
    && (n.kind == "unary_operator" || n.kind == "not_operator" ==> InputBound(w, p, "input", src, n.children[1]))
    && (IsApplyKind(n.kind) && !(n.kind == "call" || n.kind == "unary_operator" || n.kind == "not_operator") ==>
          |n.children| >= 3
          && InputBound(w, p, "inputL", src, n.children[0])
          && InputBound(w, p, "inputR", src, n.children[2]))
  }

  lemma InputsBoundGrows(w: World, w': World, src: string, p: OperationId, n: Node)
    requires Grows(w, w') && InputsBound(w, src, p, n)
    ensures InputsBound(w', src, p, n)
  {
    if n.kind == "call" {
      var args := n.children[1].children;
      forall j | 0 <= j < |args| && args[j].kind == "keyword_argument"
        ensures InputBound(w', p, Keyword(src, args[j]), src, args[j].children[2])
      {
        InputBoundGrows(w, w', p, Keyword(src, args[j]), src, args[j].children[2]);
      }
    } else if n.kind == "unary_operator" || n.kind == "not_operator" {
      InputBoundGrows(w, w', p, "input", src, n.children[1]);
    } else if IsApplyKind(n.kind) {
      InputBoundGrows(w, w', p, "inputL", src, n.children[0]);
      InputBoundGrows(w, w', p, "inputR", src, n.children[2]);
    }
  }

  /** Binding the operands of an applying node binds each input child's
      carrier under the operand the code gives it. */
  lemma LowerOperandsBind(w: World, src: string, op: OperatorId, p: OperationId, n: Node, w': World, sym: Node)
    requires Scope(w, op, p) && IsApplyKind(n.kind)
    requires (w', Normal(sym)) == LowerOperands(w, src, op, p, n)
    ensures InputsBound(w', src, p, n)
  {
    if n.kind == "call" {
      LowerCallBind(w, src, op, p, n, w', sym);
    } else if n.kind == "unary_operator" || n.kind == "not_operator" {
      LowerUnaryBind(w, src, op, p, n, w', sym);
    } else {
      var (w1, out) := LowerInfix(w, src, op, p, n);
      assert w' == w1 && out.Normal?;
      LowerInfixBind(w, src, op, p, n, w');
    }
  }

  lemma LowerCallBind(w: World, src: string, op: OperatorId, p: OperationId, n: Node, w': World, sym: Node)
    requires Scope(w, op, p) && n.kind == "call"
    requires (w', Normal(sym)) == LowerOperands(w, src, op, p, n)
    ensures InputsBound(w', src, p, n)
  {
    assert |n.children| >= 2;
    var (w1, out) := LowerArguments(w, src, op, p, n.children[1], 0);
    assert w' == w1 && out.Normal?;
    LowerArgumentsBind(w, src, op, p, n.children[1], 0, w');
  }

  lemma LowerUnaryBind(w: World, src: string, op: OperatorId, p: OperationId, n: Node, w': World, sym: Node)
    requires Scope(w, op, p) && (n.kind == "unary_operator" || n.kind == "not_operator")
    requires (w', Normal(sym)) == LowerOperands(w, src, op, p, n)
    ensures InputsBound(w', src, p, n)
  {
    var (w1, out) := LowerInput(w, src, op, p, n.children[1], "input");
    assert w' == w1 && out.Normal?;
    LowerInputBinds(w, src, op, p, n.children[1], "input", w');
  }

  lemma LowerInfixBind(w: World, src: string, op: OperatorId, p: OperationId, n: Node, w': World)
    requires Scope(w, op, p) && |n.children| >= 2
    requires (w', Normal(())) == LowerInfix(w, src, op, p, n)
    ensures |n.children| >= 3
    ensures InputBound(w', p, "inputL", src, n.children[0]) && InputBound(w', p, "inputR", src, n.children[2])
  {
    var (w1, outL) := LowerInput(w, src, op, p, n.children[0], "inputL");
    assert outL.Normal? && (w', Normal(())) == LowerInput(w1, src, op, p, n.children[2], "inputR");
    LowerInputBinds(w, src, op, p, n.children[0], "inputL", w1);
    LowerInputBinds(w1, src, op, p, n.children[2], "inputR", w');
    InputBoundGrows(w1, w', p, "inputL", src, n.children[0]);
  }

  /** An applying node that lowers without an exception binds, in the
      operation it creates, each input child's carrier under the operand
      the code gives it: a keyword argument's value under its keyword, a
      unary operand under `input`, the operands of an infix node under
      `inputL` and `inputR`. */
  lemma LowerAppliedInputs(w: World, src: string, op: OperatorId, n: Node, target: Option<string>, w': World, c: CarrierId)
    requires Valid(w) && op < |w.operators| && IsApplyKind(n.kind)
    requires (w', Normal(Some(c))) == Lower(w, src, op, n, target)
    ensures InputsBound(w', src, |w.operations|, n)
  {
    var w1, w2, applied := LowerAppliedParts(w, src, op, n, target, w', c);
    LowerOperandsBind(w1, src, op, |w.operations|, n, w2, applied);
    InputsBoundGrows(w2, w', src, |w.operations|, n);
  }
}
