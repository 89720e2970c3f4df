/** The lowering as the program runs it: `operator_registry` and the objects
    reachable from it are the fields of one `Runtime`, and every constructor
    and every function that changes the graph is a method that updates them
    in place. Each
    method is proved to leave exactly the state, and give exactly the
    result, that the functions of `Graph`, `Lowering` and `FunctionLowering`
    describe. */
module Pypiler {
  import opened Outcomes
  import opened Syntax
  import opened Graph
  import opened Lowering
  import opened FunctionLowering
  import PyDict

  class Runtime {
    var registry: map<string, OperatorId>
    var operators: seq<Operator>
    var operations: seq<Operation>
    var carriers: seq<CarrierTuft>
    var bindings: seq<CarrierBinding>

    /** The whole object graph as a value. */
    function State(): World
      reads this
    {
      World(registry, operators, operations, carriers, bindings)
    }

    /** `operator_registry = {}`: nothing is defined yet. */
    constructor ()
      ensures State() == EmptyWorld()
    {
      registry := map[];
      operators := [];
      operations := [];
      carriers := [];
      bindings := [];
    }

    // -------------------------------------------------------------------
    // Constructors of the graph's objects

    /** `Operator(identifier)`. */
    method NewOperator(name: string) returns (o: OperatorId)
      requires Valid(State())
      modifies this
      ensures (State(), o) == Graph.NewOperator(old(State()), name)
    {
      o := |operators|;
      var p := |operations|;
      registry := registry[name := o];
      operators := operators + [Operator(name, map[name := p], map[], p)];
      operations := operations + [Operation(o, name, PyDict.Empty(), PyDict.Empty(), None)];
    }

    /** `Operation(operator, identifier)`. */
    method NewOperation(o: OperatorId, id: string) returns (p: OperationId)
      requires Valid(State()) && o < |operators|
      modifies this
      ensures (State(), p) == Graph.NewOperation(old(State()), o, id)
    {
      p := |operations|;
      operators := operators[o := operators[o].(operations := operators[o].operations[id := p])];
      operations := operations + [Operation(o, id, PyDict.Empty(), PyDict.Empty(), None)];
    }

    /** `CarrierTuft(operator, identifier)`. */
    method NewCarrierTuft(o: OperatorId, id: string) returns (c: CarrierId)
      requires Valid(State()) && o < |operators|
      modifies this
      ensures (State(), c) == Graph.NewCarrier(old(State()), o, id)
    {
      c := |carriers|;
      operators := operators[o := operators[o].(carriers := operators[o].carriers[id := c])];
      carriers := carriers + [CarrierTuft(o, id, None, [])];
    }

    /** `CarrierBinding(carrier, operation, operand, type)`. */
    method NewCarrierBinding(c: CarrierId, p: OperationId, operand: string, dir: Direction)
      requires Valid(State()) && c < |carriers| && p < |operations|
      requires carriers[c].operator == operations[p].operator
      modifies this
      ensures State() == Bind(old(State()), c, p, operand, dir)
    {
      assert OperationOk(State(), p);
      var b := |bindings|;
      var key := carriers[c].identifier;
      if dir == Input {
        carriers := carriers[c := carriers[c].(destinationBindings := carriers[c].destinationBindings + [b])];
        operations := operations[p := operations[p].(inputBindings := PyDict.Put(operations[p].inputBindings, key, b))];
      } else {
        carriers := carriers[c := carriers[c].(sourceBinding := Some(b))];
        operations := operations[p := operations[p].(outputBindings := PyDict.Put(operations[p].outputBindings, key, b))];
      }
      bindings := bindings + [CarrierBinding(c, p, operand)];
    }

    // -------------------------------------------------------------------
    // Module-level functions

    /** `get_or_create_operator(identifier)`. */
    method GetOrCreateOperator(name: string) returns (o: OperatorId)
      requires Valid(State())
      modifies this
      ensures (State(), o) == Graph.GetOrCreateOperator(old(State()), name)
    {
      if name in registry {
        return registry[name];
      }
      o := NewOperator(name);
    }

    /** `constant_to_carrier(operator, value)`. */
    method ConstantToCarrier(o: OperatorId, v: ConstValue) returns (c: CarrierId)
      requires Valid(State()) && o < |operators|
      requires v.OperatorRef? ==> v.operator < |operators|
      modifies this
      ensures (State(), c) == Graph.ConstantToCarrier(old(State()), o, v)
    {
      var id := ConstIdentifier(State(), v);
      if id in operators[o].carriers {
        return operators[o].carriers[id];
      }
      var p := NewOperation(o, id);
      operations := operations[p := operations[p].(value := Some(v))];
      assert State() == SetConstValue(Graph.NewOperation(old(State()), o, id).0, p, v);
      c := NewCarrierTuft(o, id);
      NewCarrierBinding(c, p, "output", Output);
    }

    // -------------------------------------------------------------------
    // `parse_expression`

    /** `parse_expression(operator, node, output_carrier_identifier)`. */
    method ParseExpression(src: string, op: OperatorId, node: Node, target: Option<string>)
      returns (v: Outcome<Option<CarrierId>>)
      requires Valid(State()) && op < |operators|
      modifies this
      ensures (State(), v) == Lower(old(State()), src, op, node, target)
      decreases Height(node), 2, 0
    {
      var n := node;
      while n.kind == "parenthesized_expression"
        invariant StripParens(n) == StripParens(node) && Height(n) <= Height(node)
        decreases Height(n)
      {
        if |n.children| < 2 {
          return Raised(IndexError);
        }
        n := n.children[1];
      }
      assert StripParens(node) == Normal(n);
      if IsLiteralKind(n.kind) {
        var c := ConstantToCarrier(op, Literal(NodeSourceCode(src, n)));
        v := Normal(Some(c));
      } else if n.kind == "identifier" {
        var name := NodeSourceCode(src, n);
        if name in operators[op].carriers {
          v := Normal(Some(operators[op].carriers[name]));
        } else {
          v := Raised(KeyError(name));
        }
      } else if IsApplyKind(n.kind) {
        v := ParseApplied(src, op, n, target);
      } else {
        v := Normal(None);
      }
    }

    /** The applying branch of `parse_expression`. */
    method ParseApplied(src: string, op: OperatorId, n: Node, target: Option<string>)
      returns (v: Outcome<Option<CarrierId>>)
      requires Valid(State()) && op < |operators| && IsApplyKind(n.kind)
      modifies this
      ensures (State(), v) == LowerApply(old(State()), src, op, n, target)
      decreases Height(n), 0, 2
    {
      var p := NewOperation(op, NodeToIdentifier(src, n));
      var applied := ParseOperands(src, op, p, n);
      if applied.Raised? {
        return Raised(applied.exc);
      }
      ghost var w2 := State();
      var sym := NodeSourceCode(src, applied.value);
      var outName := OutputName(src, n, target);
      var toApply := GetOrCreateOperator(sym);
      var k := ConstantToCarrier(op, OperatorRef(toApply));
      NewCarrierBinding(k, p, "operator", Input);
      assert State() == BindOperator(w2, op, p, sym);
      var c := NewCarrierTuft(op, outName);
      NewCarrierBinding(c, p, "output", Output);
      assert (State(), c) == Apply(w2, op, p, sym, outName);
      v := Normal(Some(c));
    }

    /** The operands of an applying node, and the node naming its operator
      (`operator_to_apply`). */
    method ParseOperands(src: string, op: OperatorId, p: OperationId, n: Node) returns (r: Outcome<Node>)
      requires Scope(State(), op, p)
      modifies this
      ensures (State(), r) == LowerOperands(old(State()), src, op, p, n)
      decreases Height(n), 0, 1
    {
      if |n.children| == 0 {
        return Raised(IndexError);
      }
      var toApply := n.children[0];
      if n.kind == "call" {
        if |n.children| < 2 {
          return Raised(IndexError);
        }
        var out := ParseArguments(src, op, p, n.children[1]);
        if out.Raised? {
          return Raised(out.exc);
        }
      } else if n.kind == "unary_operator" || n.kind == "not_operator" {
        if |n.children| < 2 {
          return Raised(IndexError);
        }
        var out := ParseInput(src, op, p, n.children[1], "input");
        if out.Raised? {
          return Raised(out.exc);
        }
      } else {
        if |n.children| < 2 {
          return Raised(IndexError);
        }
        toApply := n.children[1];
        ghost var w0 := State();
        var outL := ParseInput(src, op, p, n.children[0], "inputL");
        if outL.Raised? {
          assert (State(), outL) == LowerInfix(w0, src, op, p, n);
          return Raised(outL.exc);
        }
        if |n.children| < 3 {
          assert (State(), Raised(IndexError)) == LowerInfix(w0, src, op, p, n);
          return Raised(IndexError);
        }
        var outR := ParseInput(src, op, p, n.children[2], "inputR");
        assert (State(), outR) == LowerInfix(w0, src, op, p, n);
        if outR.Raised? {
          return Raised(outR.exc);
        }
      }
      r := Normal(toApply);
    }

    /** The loop over a call's arguments: keyword arguments are lowered and
      bound under their keyword, every other argument is skipped. */
    method ParseArguments(src: string, op: OperatorId, p: OperationId, args: Node) returns (r: Outcome<()>)
      requires Scope(State(), op, p)
      modifies this
      ensures (State(), r) == LowerArguments(old(State()), src, op, p, args, 0)
      decreases Height(args), 3, 0
    {
      var i := 0;
      while i < |args.children|
        invariant 0 <= i <= |args.children|
        invariant Scope(State(), op, p)
        invariant LowerArguments(State(), src, op, p, args, i) == LowerArguments(old(State()), src, op, p, args, 0)
      {
        var a := args.children[i];
        if a.kind == "keyword_argument" {
          if |a.children| < 3 {
            return Raised(IndexError);
          }
          assert Height(a) < Height(args) && Height(a.children[2]) < Height(a);
          KeywordArgumentStep(State(), src, op, p, args, i);
          var out := ParseInput(src, op, p, a.children[2], NodeSourceCode(src, a.children[0]));
          if out.Raised? {
            return out;
          }
        } else {
          SkipArgument(State(), src, op, p, args, i);
        }
        i := i + 1;
      }
      r := Normal(());
    }

    /** `CarrierBinding(parse_expression(operator, e), operation, operand,
      'input')`. */
    method ParseInput(src: string, op: OperatorId, p: OperationId, e: Node, operand: string) returns (r: Outcome<()>)
      requires Scope(State(), op, p)
      modifies this
      ensures (State(), r) == LowerInput(old(State()), src, op, p, e, operand)
      decreases Height(e), 2, 1
    {
      var v := ParseExpression(src, op, e, None);
      if v.Raised? {
        return Raised(v.exc);
      }
      if v.value.None? {
        return Raised(AttributeError);
      }
      NewCarrierBinding(v.value.value, p, operand, Input);
      r := Normal(());
    }

    // -------------------------------------------------------------------
    // `parse_function`

    /** `parse_function(func)`, given the function's source text and its
      parse tree. */
    method ParseFunction(src: string, root: Node) returns (r: Outcome<OperatorId>)
      requires Valid(State())
      modifies this
      ensures (State(), r) == LowerFunction(old(State()), src, root)
    {
      if |root.children| == 0 {
        return Raised(IndexError);
      }
      var def := root.children[0];
      if |def.children| < 2 {
        return Raised(IndexError);
      }
      var name := NodeSourceCode(src, def.children[1]);
      var o := NewOperator(name);
      ghost var w1 := State();
      // `operator_registry[function_name] = operator` stores the entry the
      // constructor has just stored.
      registry := registry[name := o];
      assert State() == w1;
      assert Interface(State(), o);
      if |def.children| < 3 {
        return Raised(IndexError);
      }
      ParseParameters(src, o, def.children[2].children);
      if |def.children| < 5 {
        return Raised(IndexError);
      }
      var out := ParseBody(src, o, def.children[4].children);
      r := if out.Raised? then Raised(out.exc) else Normal(o);
    }

    /** The loop over the parameters. */
    method ParseParameters(src: string, o: OperatorId, params: seq<Node>)
      requires Interface(State(), o)
      modifies this
      ensures State() == LowerParams(old(State()), src, o, params, 0)
    {
      var i := 0;
      while i < |params|
        invariant 0 <= i <= |params| && Interface(State(), o)
        invariant LowerParams(State(), src, o, params, i) == LowerParams(old(State()), src, o, params, 0)
      {
        if params[i].kind == "identifier" {
          AddParameter(o, NodeSourceCode(src, params[i]));
        }
        i := i + 1;
      }
    }

    /** The body of the parameter loop for an identifier: `variable =
      CarrierTuft(operator, name)` bound to the self operation. */
    method AddParameter(o: OperatorId, name: string)
      requires Interface(State(), o)
      modifies this
      ensures State() == AddParam(old(State()), o, name)
    {
      var c := NewCarrierTuft(o, name);
      assert Interface(State(), o) by { InterfaceAfterLowering(old(State()), State(), o); }
      BindToSelf(o, c, Output);
    }

    /** `CarrierBinding(variable, operator.self_operation,
      variable.identifier, type)`. */
    method BindToSelf(o: OperatorId, c: CarrierId, dir: Direction)
      requires Interface(State(), o) && CarrierOf(State(), o, c)
      modifies this
      ensures State() == BindSelf(old(State()), o, c, dir)
    {
      assert OperatorOk(State(), o);
      NewCarrierBinding(c, operators[o].selfOperation, carriers[c].identifier, dir);
    }

    /** The loop over the statements of the body. */
    method ParseBody(src: string, o: OperatorId, stmts: seq<Node>) returns (r: Outcome<()>)
      requires Interface(State(), o)
      modifies this
      ensures (State(), r) == LowerBody(old(State()), src, o, stmts, 0)
    {
      var i := 0;
      while i < |stmts|
        invariant 0 <= i <= |stmts| && Interface(State(), o)
        invariant LowerBody(State(), src, o, stmts, i) == LowerBody(old(State()), src, o, stmts, 0)
      {
        var st := stmts[i];
        ghost var before := State();
        if st.kind == "expression_statement" {
          if |st.children| == 0 {
            return Raised(IndexError);
          }
          if st.children[0].kind == "assignment" {
            var a := st.children[0];
            if |a.children| < 3 || |a.children[2].children| == 0 || |a.children[0].children| == 0 {
              return Raised(IndexError);
            }
            var v := ParseExpression(src, o, a.children[2].children[0], Some(NodeSourceCode(src, a.children[0].children[0])));
            InterfaceAfterLowering(before, State(), o);
            if v.Raised? {
              return Raised(v.exc);
            }
          }
        } else if st.kind == "return_statement" {
          if |st.children| < 2 {
            return Raised(IndexError);
          }
          var out := ParseReturn(src, o, st.children[1].children);
          if out.Raised? {
            return out;
          }
        }
        i := i + 1;
      }
      r := Normal(());
    }

    /** The loop over the expressions of a `return`. */
    method ParseReturn(src: string, o: OperatorId, es: seq<Node>) returns (r: Outcome<()>)
      requires Interface(State(), o)
      modifies this
      ensures (State(), r) == LowerReturns(old(State()), src, o, es, 0)
    {
      var i := 0;
      while i < |es|
        invariant 0 <= i <= |es| && Interface(State(), o)
        invariant LowerReturns(State(), src, o, es, i) == LowerReturns(old(State()), src, o, es, 0)
      {
        ghost var before := State();
        var v := ParseExpression(src, o, es[i], None);
        InterfaceAfterLowering(before, State(), o);
        if v.Raised? {
          return Raised(v.exc);
        }
        if v.value.None? {
          return Raised(AttributeError);
        }
        BindToSelf(o, v.value.value, Input);
        i := i + 1;
      }
      r := Normal(());
    }
  }
}
