/** `parse_function`: a function definition lowered into a new operator
    whose self operation is its interface. The parameters become output
    bindings of the self operation (the values flowing into the body) and
    the returned values become its input bindings (the values flowing out). */
module FunctionLowering {
  import opened Outcomes
  import opened Syntax
  import opened Graph
  import opened Lowering
  import PyDict

  // ---------------------------------------------------------------------
  // The self operation while the function is lowered

  /** The self operation's binding map in direction `dir`. */
  function SelfBindings(w: World, o: OperatorId, dir: Direction): PyDict.Dict<BindingId>
    requires o < |w.operators| && w.operators[o].selfOperation < |w.operations|
  {
    var s := w.operations[w.operators[o].selfOperation];
    if dir == Input then s.inputBindings else s.outputBindings
  }

  /** Every binding stored in `d` has its key as operand. */
  ghost predicate OperandIsKey(w: World, d: PyDict.Dict<BindingId>) {
    forall k | k in d.entries :: d.entries[k] < |w.bindings| && w.bindings[d.entries[k]].operand == k
  }

  /** What `parse_function` keeps true of the operator it builds: the graph
      is well formed, and both binding maps of the self operation hold only
      bindings made with the carrier's identifier as operand. */
  ghost predicate Interface(w: World, o: OperatorId) {
    && Valid(w) && o < |w.operators|
    && w.operators[o].selfOperation < |w.operations|
    && OperandIsKey(w, SelfBindings(w, o, Input))
    && OperandIsKey(w, SelfBindings(w, o, Output))
  }

  /** Registry entries are never replaced or removed. */
  ghost predicate KeepsRegistry(w: World, w': World) {
    forall name | name in w.registry :: name in w'.registry && w'.registry[name] == w.registry[name]
  }

  /** Lowering an expression of `o` leaves `o`'s self operation alone. */
  lemma InterfaceAfterLowering(w: World, w': World, o: OperatorId)
    requires Interface(w, o) && Valid(w') && OnlyAdds(w, w')
    ensures Interface(w', o) && Grows(w, w') && KeepsRegistry(w, w')
    ensures SelfBindings(w', o, Input) == SelfBindings(w, o, Input)
    ensures SelfBindings(w', o, Output) == SelfBindings(w, o, Output)
  {
    var s := w.operators[o].selfOperation;
    assert w'.operations[s] == w.operations[s];
    forall b | 0 <= b < |w.bindings| ensures w'.bindings[b] == w.bindings[b] {
      assert w.bindings <= w'.bindings;
    }
  }

  lemma StepsCompose(w1: World, w2: World, w3: World)
    requires Grows(w1, w2) && Grows(w2, w3) && KeepsRegistry(w1, w2) && KeepsRegistry(w2, w3)
    ensures Grows(w1, w3) && KeepsRegistry(w1, w3)
  {
    GrowsTransitive(w1, w2, w3);
  }

  /** `CarrierBinding(variable, operator.self_operation, variable.identifier,
      type)`: a carrier of the operator bound to the self operation, with
      the carrier's identifier as operand and as key. */
  function BindSelf(w: World, o: OperatorId, c: CarrierId, dir: Direction): (r: World)
    requires Interface(w, o) && CarrierOf(w, o, c)
    ensures Interface(r, o) && Grows(w, r) && KeepsRegistry(w, r)
    ensures OperationOk(w, w.operators[o].selfOperation)
    ensures var key := w.carriers[c].identifier;
            && SelfBindings(r, o, dir) == PyDict.Put(SelfBindings(w, o, dir), key, |w.bindings|)
            && SelfBindings(r, o, Opposite(dir)) == SelfBindings(w, o, Opposite(dir))
            && r.bindings == w.bindings + [CarrierBinding(c, w.operators[o].selfOperation, key)]
  {
    var s := w.operators[o].selfOperation;
    assert OperatorOk(w, o);
    assert OperationOk(w, s);
    var key := w.carriers[c].identifier;
    var r := Bind(w, c, s, key, dir);
    assert r.operators == w.operators;
    forall b | 0 <= b < |w.bindings| ensures r.bindings[b] == w.bindings[b] {
      assert w.bindings <= r.bindings;
    }
    assert r.bindings[|w.bindings|].operand == key;
    r
  }

  function Opposite(dir: Direction): Direction {
    if dir == Input then Output else Input
  }

  // ---------------------------------------------------------------------
  // Parameters

  /** The names of the identifier parameters from position `i` on. */
  function ParamNames(src: string, params: seq<Node>, i: nat): seq<string>
    decreases |params| - i
  {
    if i >= |params| then []
    else
      (if params[i].kind == "identifier" then [NodeSourceCode(src, params[i])] else [])
      + ParamNames(src, params, i + 1)
  }

  /** The `for parameter in function_definition.children[2].children` loop
      from position `i` on: an identifier parameter becomes a carrier of
      that name bound as an output of the self operation; every other child
      (punctuation, defaults, starred parameters) is skipped. */
  function LowerParams(w: World, src: string, o: OperatorId, params: seq<Node>, i: nat): (r: World)
    requires Interface(w, o) && i <= |params|
    ensures Interface(r, o) && Grows(w, r) && KeepsRegistry(w, r)
    ensures SelfBindings(r, o, Input) == SelfBindings(w, o, Input)
    decreases |params| - i
  {
    if i == |params| then w
    else if params[i].kind != "identifier" then LowerParams(w, src, o, params, i + 1)
    else
      var w1 := AddParam(w, o, NodeSourceCode(src, params[i]));
      var w2 := LowerParams(w1, src, o, params, i + 1);
      StepsCompose(w, w1, w2);
      w2
  }

  /** `name` is in the scope of operator `o`, and the carrier it names there
      is produced by `o`'s self operation under the operand `name`: what a
      parameter of the function is. */
  ghost predicate SelfProduced(w: World, o: OperatorId, name: string)
    requires o < |w.operators|
  {
    && name in w.operators[o].carriers
    && var c := w.operators[o].carriers[name];
       && c < |w.carriers| && w.carriers[c].sourceBinding.Some?
       && var b := w.carriers[c].sourceBinding.value;
          && b < |w.bindings|
          && w.bindings[b] == CarrierBinding(c, w.operators[o].selfOperation, name)
  }

  /** One identifier parameter: `CarrierTuft(operator, name)` bound as an
      output of the self operation, so the self operation's outputs gain
      `name`, keeping its place if it already has one, and `name` now names
      that new carrier in the operator's scope. */
  function AddParam(w: World, o: OperatorId, name: string): (r: World)
    requires Interface(w, o)
    ensures Interface(r, o) && Grows(w, r) && KeepsRegistry(w, r)
    ensures SelfBindings(r, o, Input) == SelfBindings(w, o, Input)
    ensures OperationOk(w, w.operators[o].selfOperation)
    ensures SelfBindings(r, o, Output) == PyDict.Put(SelfBindings(w, o, Output), name, |w.bindings|)
    ensures r.operators[o].carriers == w.operators[o].carriers[name := |w.carriers|]
    ensures |r.carriers| == |w.carriers| + 1 && r.carriers[|w.carriers|].sourceBinding == Some(|w.bindings|)
    ensures r.bindings == w.bindings + [CarrierBinding(|w.carriers|, w.operators[o].selfOperation, name)]
    ensures SelfProduced(r, o, name)
    ensures forall x | SelfProduced(w, o, x) :: SelfProduced(r, o, x)
  {
    var (w1, c) := NewCarrier(w, o, name);
    InterfaceAfterLowering(w, w1, o);
    var w2 := BindSelf(w1, o, c, Output);
    StepsCompose(w, w1, w2);
    assert w2.operators == w1.operators;
    assert forall d | 0 <= d < |w.carriers| :: w2.carriers[d].sourceBinding == w.carriers[d].sourceBinding;
    w2
  }

  /** The parameters are recorded as the operator's inputs in the order of
      their first appearance: the self operation's output keys continue
      whatever order they had with the parameter names, each name once. */
  lemma {:induction false} LowerParamsOrder(w: World, src: string, o: OperatorId, params: seq<Node>, i: nat, x: seq<string>)
    requires Interface(w, o) && i <= |params|
    requires SelfBindings(w, o, Output).keys == PyDict.Dedup(x)
    ensures SelfBindings(LowerParams(w, src, o, params, i), o, Output).keys
         == PyDict.Dedup(x + ParamNames(src, params, i))
    decreases |params| - i
  {
    if i == |params| {
      assert x + ParamNames(src, params, i) == x;
    } else {
      ParamNamesStep(src, params, i, x);
      if params[i].kind != "identifier" {
        LowerParamsOrder(w, src, o, params, i + 1, x);
      } else {
        var name := NodeSourceCode(src, params[i]);
        AddParamOrder(w, o, name, x);
        LowerParamsOrder(AddParam(w, o, name), src, o, params, i + 1, x + [name]);
      }
    }
  }

  /** The parameter loop from position `i` on keeps every name already in
      the operator's scope, and every name the self operation already
      produces stays produced by it. */
  lemma {:induction false} LowerParamsKeepsScope(w: World, src: string, o: OperatorId, params: seq<Node>, i: nat)
    requires Interface(w, o) && i <= |params|
    ensures var r := LowerParams(w, src, o, params, i);
            && w.operators[o].carriers.Keys <= r.operators[o].carriers.Keys
            && (forall x | SelfProduced(w, o, x) :: SelfProduced(r, o, x))
    decreases |params| - i
  {
    if i < |params| {
      if params[i].kind != "identifier" {
        LowerParamsKeepsScope(w, src, o, params, i + 1);
      } else {
        var w1 := AddParam(w, o, NodeSourceCode(src, params[i]));
        LowerParamsKeepsScope(w1, src, o, params, i + 1);
      }
    }
  }

  /** After the parameter loop every identifier parameter from position `i`
      on names, in the operator's scope, a carrier the self operation
      produces under that name, so the body's identifier lookups find it. */
  lemma {:induction false} LowerParamsScope(w: World, src: string, o: OperatorId, params: seq<Node>, i: nat)
    requires Interface(w, o) && i <= |params|
    ensures forall j | i <= j < |params| && params[j].kind == "identifier" ::
              SelfProduced(LowerParams(w, src, o, params, i), o, NodeSourceCode(src, params[j]))
    decreases |params| - i
  {
    if i < |params| {
      var r := LowerParams(w, src, o, params, i);
      if params[i].kind != "identifier" {
        LowerParamsScope(w, src, o, params, i + 1);
      } else {
        var name := NodeSourceCode(src, params[i]);
        var w1 := AddParam(w, o, name);
        assert r == LowerParams(w1, src, o, params, i + 1);
        LowerParamsScope(w1, src, o, params, i + 1);
        LowerParamsKeepsScope(w1, src, o, params, i + 1);
        assert SelfProduced(r, o, name);
      }
    }
  }

  lemma ParamNamesStep(src: string, params: seq<Node>, i: nat, x: seq<string>)
    requires i < |params|
    ensures params[i].kind != "identifier" ==> x + ParamNames(src, params, i) == x + ParamNames(src, params, i + 1)
    ensures params[i].kind == "identifier" ==>
              x + ParamNames(src, params, i) == (x + [NodeSourceCode(src, params[i])]) + ParamNames(src, params, i + 1)
  {
    if params[i].kind != "identifier" {
      assert ParamNames(src, params, i) == [] + ParamNames(src, params, i + 1);
      assert [] + ParamNames(src, params, i + 1) == ParamNames(src, params, i + 1);
    }
  }

  lemma AddParamOrder(w: World, o: OperatorId, name: string, x: seq<string>)
    requires Interface(w, o) && SelfBindings(w, o, Output).keys == PyDict.Dedup(x)
    ensures SelfBindings(AddParam(w, o, name), o, Output).keys == PyDict.Dedup(x + [name])
  {
    var r := AddParam(w, o, name);
    PyDict.PutKeepsFirstInsertionOrder(SelfBindings(w, o, Output), x, name, |w.bindings|);
  }

  // ---------------------------------------------------------------------
  // Return statements

  /** The `for expression in statement.children[1].children` loop of a
      `return` from position `i` on: each expression is lowered and its
      carrier bound as an input of the self operation. An expression that
      gives `None` (the comma between two returned values, or a kind that
      is not handled) raises an AttributeError. */
  function LowerReturns(w: World, src: string, o: OperatorId, es: seq<Node>, i: nat): (r: (World, Outcome<()>))
    requires Interface(w, o) && i <= |es|
    ensures Interface(r.0, o) && Grows(w, r.0) && KeepsRegistry(w, r.0)
    ensures SelfBindings(r.0, o, Output) == SelfBindings(w, o, Output)
    ensures SelfBindings(w, o, Input).keys <= SelfBindings(r.0, o, Input).keys
    decreases |es| - i
  {
    if i == |es| then (w, Normal(()))
    else
      var (w1, v) := Lower(w, src, o, es[i], None);
      InterfaceAfterLowering(w, w1, o);
      match v
      case Raised(e) => (w1, Raised(e))
      case Normal(None) => (w1, Raised(AttributeError))
      case Normal(Some(c)) =>
        var w2 := BindSelf(w1, o, c, Input);
        StepsCompose(w, w1, w2);
        var (w3, out) := LowerReturns(w2, src, o, es, i + 1);
        StepsCompose(w, w2, w3);
        (w3, out)
  }

  /** A returned variable becomes an output of the operator under its own
      name: when the return loop completes, the name of every identifier
      it lowered is a key of the self operation's input bindings. */
  lemma {:induction false} LowerReturnsIdentifier(w: World, src: string, o: OperatorId, es: seq<Node>, i: nat, j: nat)
    requires Interface(w, o) && i <= j < |es| && es[j].kind == "identifier"
    requires LowerReturns(w, src, o, es, i).1.Normal?
    ensures NodeSourceCode(src, es[j]) in SelfBindings(LowerReturns(w, src, o, es, i).0, o, Input).keys
    decreases j - i
  {
    var (w1, v) := Lower(w, src, o, es[i], None);
    InterfaceAfterLowering(w, w1, o);
    var c := v.value.value;
    var w2 := BindSelf(w1, o, c, Input);
    if i == j {
      LowerIdentifier(w, src, o, es[i], None);
      assert NodeSourceCode(src, es[j]) in SelfBindings(w2, o, Input).keys;
    } else {
      LowerReturnsIdentifier(w2, src, o, es, i + 1, j);
    }
  }

  /** The identifiers of the carriers a `return` binds from position `i`
      on, read off the returned expressions. */
  function ReturnedNames(src: string, es: seq<Node>, i: nat): seq<string>
    decreases |es| - i
  {
    if i >= |es| then []
    else
      (match ExpressionName(src, es[i]) case Some(x) => [x] case None => [])
      + ReturnedNames(src, es, i + 1)
  }

  /** The return loop binds its expressions' carriers as outputs in order:
      the self operation's input keys continue whatever order they had with
      the names of the returned expressions, each name once. */
  lemma {:induction false} LowerReturnsOrder(w: World, src: string, o: OperatorId, es: seq<Node>, i: nat, x: seq<string>)
    requires Interface(w, o) && i <= |es|
    requires SelfBindings(w, o, Input).keys == PyDict.Dedup(x)
    requires LowerReturns(w, src, o, es, i).1.Normal?
    ensures SelfBindings(LowerReturns(w, src, o, es, i).0, o, Input).keys == PyDict.Dedup(x + ReturnedNames(src, es, i))
    decreases |es| - i
  {
    if i == |es| {
      assert LowerReturns(w, src, o, es, i).0 == w;
      assert ReturnedNames(src, es, i) == [];
      assert x + ReturnedNames(src, es, i) == x;
    } else {
      var w2, name := ReturnStep(w, src, o, es, i, x);
      var rest := ReturnedNames(src, es, i + 1);
      ConcatAssoc(x, [name], rest);
      LowerReturnsOrder(w2, src, o, es, i + 1, x + [name]);
    }
  }

  lemma ConcatAssoc(a: seq<string>, b: seq<string>, c: seq<string>)
    ensures a + (b + c) == (a + b) + c
  {
  }

  /** One turn of the return loop: the expression's carrier, named as the
      expression says, is put into the self operation's input map. */
  lemma ReturnStep(w: World, src: string, o: OperatorId, es: seq<Node>, i: nat, x: seq<string>)
    returns (w2: World, name: string)
    requires Interface(w, o) && i < |es|
    requires SelfBindings(w, o, Input).keys == PyDict.Dedup(x)
    requires LowerReturns(w, src, o, es, i).1.Normal?
    ensures Interface(w2, o) && SelfBindings(w2, o, Input).keys == PyDict.Dedup(x + [name])
    ensures LowerReturns(w, src, o, es, i) == LowerReturns(w2, src, o, es, i + 1)
    ensures ReturnedNames(src, es, i) == [name] + ReturnedNames(src, es, i + 1)
  {
    var (w1, v) := Lower(w, src, o, es[i], None);
    InterfaceAfterLowering(w, w1, o);
    var c := v.value.value;
    LowerName(w, src, o, es[i], w1, c);
    name := w1.carriers[c].identifier;
    w2 := BindSelf(w1, o, c, Input);
    PyDict.PutKeepsFirstInsertionOrder(SelfBindings(w1, o, Input), x, name, |w1.bindings|);
  }

  // ---------------------------------------------------------------------
  // The body

  /** The `for statement in function_definition.children[4].children` loop
      from position `i` on. Of an expression statement only an assignment
      is lowered: the first expression on its right, with the text of the
      first target on its left as the name of the carrier it produces. A
      `return` binds its expressions as outputs. Every other statement is
      skipped. */
  function LowerBody(w: World, src: string, o: OperatorId, stmts: seq<Node>, i: nat): (r: (World, Outcome<()>))
    requires Interface(w, o) && i <= |stmts|
    ensures Interface(r.0, o) && Grows(w, r.0) && KeepsRegistry(w, r.0)
    ensures SelfBindings(r.0, o, Output) == SelfBindings(w, o, Output)
    ensures SelfBindings(w, o, Input).keys <= SelfBindings(r.0, o, Input).keys
    decreases |stmts| - i
  {
    if i == |stmts| then (w, Normal(()))
    else
      var st := stmts[i];
      if st.kind == "expression_statement" then
        if |st.children| == 0 then (w, Raised(IndexError))
        else if st.children[0].kind != "assignment" then LowerBody(w, src, o, stmts, i + 1)
        else
          var a := st.children[0];
          if |a.children| < 3 || |a.children[2].children| == 0 || |a.children[0].children| == 0 then
            (w, Raised(IndexError))
          else
            var target := NodeSourceCode(src, a.children[0].children[0]);
            var (w1, v) := Lower(w, src, o, a.children[2].children[0], Some(target));
            InterfaceAfterLowering(w, w1, o);
            if v.Raised? then (w1, Raised(v.exc))
            else
              var (w2, out) := LowerBody(w1, src, o, stmts, i + 1);
              StepsCompose(w, w1, w2);
              (w2, out)
      else if st.kind == "return_statement" then
        if |st.children| < 2 then (w, Raised(IndexError))
        else
          var (w1, out) := LowerReturns(w, src, o, st.children[1].children, 0);
          if out.Raised? then (w1, out)
          else
            var (w2, rest) := LowerBody(w1, src, o, stmts, i + 1);
            StepsCompose(w, w1, w2);
            (w2, rest)
      else LowerBody(w, src, o, stmts, i + 1)
  }

  /** `return e1, ..., en` with `ek` an identifier, anywhere in the body:
      when the body lowers without an exception, the identifier's name is a
      key of the self operation's input bindings. */
  ghost predicate ReturnsIdentifier(src: string, st: Node, k: nat, name: string) {
    && st.kind == "return_statement" && |st.children| >= 2
    && k < |st.children[1].children| && st.children[1].children[k].kind == "identifier"
    && NodeSourceCode(src, st.children[1].children[k]) == name
  }

  lemma {:induction false} LowerBodyReturns(w: World, src: string, o: OperatorId, stmts: seq<Node>, i: nat, j: nat, k: nat, name: string)
    requires Interface(w, o) && i <= j < |stmts| && ReturnsIdentifier(src, stmts[j], k, name)
    requires LowerBody(w, src, o, stmts, i).1.Normal?
    ensures name in SelfBindings(LowerBody(w, src, o, stmts, i).0, o, Input).keys
    decreases j - i
  {
    var st := stmts[i];
    if st.kind == "expression_statement" {
      if st.children[0].kind != "assignment" {
        LowerBodyReturns(w, src, o, stmts, i + 1, j, k, name);
      } else {
        var a := st.children[0];
        var (w1, v) := Lower(w, src, o, a.children[2].children[0], Some(NodeSourceCode(src, a.children[0].children[0])));
        InterfaceAfterLowering(w, w1, o);
        LowerBodyReturns(w1, src, o, stmts, i + 1, j, k, name);
      }
    } else if st.kind == "return_statement" {
      var (w1, out) := LowerReturns(w, src, o, st.children[1].children, 0);
      if i == j {
        LowerReturnsIdentifier(w, src, o, st.children[1].children, 0, k);
      } else {
        LowerBodyReturns(w1, src, o, stmts, i + 1, j, k, name);
      }
    } else {
      LowerBodyReturns(w, src, o, stmts, i + 1, j, k, name);
    }
  }

  /** The names of the carriers the `return` statements of the body bind,
      statement by statement from position `i` on. */
  function BodyReturnedNames(src: string, stmts: seq<Node>, i: nat): seq<string>
    decreases |stmts| - i
  {
    if i >= |stmts| then []
    else
      (if stmts[i].kind == "return_statement" && |stmts[i].children| >= 2
       then ReturnedNames(src, stmts[i].children[1].children, 0) else [])
      + BodyReturnedNames(src, stmts, i + 1)
  }

  /** Only `return` statements add outputs, and they add them in order:
      the self operation's input keys continue whatever order they had with
      the names of all returned expressions, each name once. */
  lemma {:induction false} LowerBodyOrder(w: World, src: string, o: OperatorId, stmts: seq<Node>, i: nat, x: seq<string>)
    requires Interface(w, o) && i <= |stmts|
    requires SelfBindings(w, o, Input).keys == PyDict.Dedup(x)
    requires LowerBody(w, src, o, stmts, i).1.Normal?
    ensures SelfBindings(LowerBody(w, src, o, stmts, i).0, o, Input).keys == PyDict.Dedup(x + BodyReturnedNames(src, stmts, i))
    decreases |stmts| - i
  {
    if i == |stmts| {
      assert x + BodyReturnedNames(src, stmts, i) == x;
    } else {
      var st := stmts[i];
      if st.kind == "return_statement" {
        var w1, y := BodyReturnStep(w, src, o, stmts, i, x);
        LowerBodyOrder(w1, src, o, stmts, i + 1, y);
      } else {
        var w1 := BodyOtherStep(w, src, o, stmts, i);
        assert BodyReturnedNames(src, stmts, i) == [] + BodyReturnedNames(src, stmts, i + 1);
        assert x + BodyReturnedNames(src, stmts, i) == x + BodyReturnedNames(src, stmts, i + 1);
        LowerBodyOrder(w1, src, o, stmts, i + 1, x);
      }
    }
  }

  /** A `return` statement of the body appends its names to the outputs. */
  lemma BodyReturnStep(w: World, src: string, o: OperatorId, stmts: seq<Node>, i: nat, x: seq<string>)
    returns (w1: World, y: seq<string>)
    requires Interface(w, o) && i < |stmts| && stmts[i].kind == "return_statement"
    requires SelfBindings(w, o, Input).keys == PyDict.Dedup(x)
    requires LowerBody(w, src, o, stmts, i).1.Normal?
    ensures Interface(w1, o) && SelfBindings(w1, o, Input).keys == PyDict.Dedup(y)
    ensures LowerBody(w, src, o, stmts, i) == LowerBody(w1, src, o, stmts, i + 1)
    ensures x + BodyReturnedNames(src, stmts, i) == y + BodyReturnedNames(src, stmts, i + 1)
  {
    var es := stmts[i].children[1].children;
    var out;
    w1, out := LowerReturns(w, src, o, es, 0).0, LowerReturns(w, src, o, es, 0).1;
    LowerReturnsOrder(w, src, o, es, 0, x);
    y := x + ReturnedNames(src, es, 0);
    assert BodyReturnedNames(src, stmts, i) == ReturnedNames(src, es, 0) + BodyReturnedNames(src, stmts, i + 1);
    ConcatAssoc(x, ReturnedNames(src, es, 0), BodyReturnedNames(src, stmts, i + 1));
  }

  /** Any other statement of the body leaves the outputs alone. */
  lemma BodyOtherStep(w: World, src: string, o: OperatorId, stmts: seq<Node>, i: nat)
    returns (w1: World)
    requires Interface(w, o) && i < |stmts| && stmts[i].kind != "return_statement"
    requires LowerBody(w, src, o, stmts, i).1.Normal?
    ensures Interface(w1, o) && SelfBindings(w1, o, Input) == SelfBindings(w, o, Input)
    ensures LowerBody(w, src, o, stmts, i) == LowerBody(w1, src, o, stmts, i + 1)
  {
    var st := stmts[i];
    if st.kind == "expression_statement" && st.children[0].kind == "assignment" {
      var a := st.children[0];
      var v;
      w1, v := Lower(w, src, o, a.children[2].children[0], Some(NodeSourceCode(src, a.children[0].children[0]))).0,
               Lower(w, src, o, a.children[2].children[0], Some(NodeSourceCode(src, a.children[0].children[0]))).1;
      InterfaceAfterLowering(w, w1, o);
    } else {
      w1 := w;
    }
  }

  // ---------------------------------------------------------------------
  // The whole function

  /** The function definition: the first child of the module. */
  function Definition(root: Node): Node
    requires |root.children| >= 1
  {
    root.children[0]
  }

  /** `parse_function`: the first statement of the module must be the
      definition; its name becomes a new operator registered under that
      name, then the parameters and the body are lowered into it. An
      exception leaves the graph built up to that point, registered
      operator included. */
  function LowerFunction(w: World, src: string, root: Node): (r: (World, Outcome<OperatorId>))
    requires Valid(w)
    ensures Valid(r.0) && Grows(w, r.0)
    ensures r.1.Normal? ==> && r.1.value == |w.operators| && Interface(r.0, r.1.value)
                            && |root.children| >= 1 && |Definition(root).children| >= 5
    ensures r.1.Normal? ==>
              var name := NodeSourceCode(src, Definition(root).children[1]);
              name in r.0.registry && r.0.registry[name] == r.1.value
              && r.0.operators[r.1.value].identifier == name
  {
    if |root.children| == 0 then (w, Raised(IndexError))
    else
      var def := Definition(root);
      if |def.children| < 2 then (w, Raised(IndexError))
      else
        var name := NodeSourceCode(src, def.children[1]);
        var (w1, o) := NewOperator(w, name);
        assert Interface(w1, o);
        if |def.children| < 3 then (w1, Raised(IndexError))
        else
          var w2 := LowerParams(w1, src, o, def.children[2].children, 0);
          if |def.children| < 5 then (w2, Raised(IndexError))
          else
            var (w3, out) := LowerBody(w2, src, o, def.children[4].children, 0);
            StepsCompose(w1, w2, w3);
            GrowsTransitive(w, w1, w3);
            (w3, if out.Raised? then Raised(out.exc) else Normal(o))
  }

  /** `get_input_operands` of a lowered function lists its parameter names,
      each once, in the order they are declared. */
  lemma FunctionInputs(w: World, src: string, root: Node, w': World, o: OperatorId)
    requires Valid(w) && (w', Normal(o)) == LowerFunction(w, src, root)
    ensures InputOperands(w', o) == PyDict.Dedup(ParamNames(src, Definition(root).children[2].children, 0))
  {
    var def := Definition(root);
    var name := NodeSourceCode(src, def.children[1]);
    var (w1, o1) := NewOperator(w, name);
    var params := def.children[2].children;
    assert SelfBindings(w1, o, Output).keys == PyDict.Dedup([]);
    LowerParamsOrder(w1, src, o, params, 0, []);
    assert [] + ParamNames(src, params, 0) == ParamNames(src, params, 0);
    var w2 := LowerParams(w1, src, o, params, 0);
    var s := w'.operators[o].selfOperation;
    assert OperatorOk(w', o) && OperationOk(w', s);
    OperandsAreKeys(w', s, SelfBindings(w', o, Output));
  }

  /** `get_output_operands` of a lowered function lists, each once, the
      identifiers of carriers of the function: each output is the carrier
      bound under that name. */
  lemma FunctionOutputs(w: World, src: string, root: Node, w': World, o: OperatorId)
    requires Valid(w) && (w', Normal(o)) == LowerFunction(w, src, root)
    ensures var outs := OutputOperands(w', o);
            && PyDict.Distinct(outs)
            && forall i | 0 <= i < |outs| ::
                 var b := SelfBindings(w', o, Input).entries[outs[i]];
                 CarrierOf(w', o, w'.bindings[b].carrier) && w'.carriers[w'.bindings[b].carrier].identifier == outs[i]
  {
    var s := w'.operators[o].selfOperation;
    assert OperatorOk(w', o) && OperationOk(w', s);
    var d := SelfBindings(w', o, Input);
    OperandsAreKeys(w', s, d);
    forall i | 0 <= i < |d.keys| ensures CarrierOf(w', o, w'.bindings[d.entries[d.keys[i]]].carrier) {
      assert d.keys[i] in d.entries;
      assert BindingOk(w', d.entries[d.keys[i]]);
    }
  }

  /** Every variable a `return` of the body names is an output of the
      lowered function. */
  lemma FunctionReturns(w: World, src: string, root: Node, w': World, o: OperatorId)
    requires Valid(w) && (w', Normal(o)) == LowerFunction(w, src, root)
    ensures forall j, k, name | 0 <= j < |Definition(root).children[4].children|
                             && ReturnsIdentifier(src, Definition(root).children[4].children[j], k, name)
              :: name in OutputOperands(w', o)
  {
    var s := w'.operators[o].selfOperation;
    assert OperatorOk(w', o) && OperationOk(w', s);
    OperandsAreKeys(w', s, SelfBindings(w', o, Input));
    var def := Definition(root);
    var name := NodeSourceCode(src, def.children[1]);
    var (w1, o1) := NewOperator(w, name);
    var w2 := LowerParams(w1, src, o, def.children[2].children, 0);
    forall j, k, n | 0 <= j < |def.children[4].children| && ReturnsIdentifier(src, def.children[4].children[j], k, n)
      ensures n in OutputOperands(w', o)
    {
      LowerBodyReturns(w2, src, o, def.children[4].children, 0, j, k, n);
    }
  }

  /** `get_output_operands` of a lowered function lists the identifiers of
      the carriers its `return` statements bind, each once, in the order
      they are first returned; nothing else becomes an output. */
  lemma FunctionOutputNames(w: World, src: string, root: Node, w': World, o: OperatorId)
    requires Valid(w) && (w', Normal(o)) == LowerFunction(w, src, root)
    ensures OutputOperands(w', o) == PyDict.Dedup(BodyReturnedNames(src, Definition(root).children[4].children, 0))
  {
    var def := Definition(root);
    var name := NodeSourceCode(src, def.children[1]);
    var (w1, o1) := NewOperator(w, name);
    var w2 := LowerParams(w1, src, o, def.children[2].children, 0);
    var stmts := def.children[4].children;
    assert SelfBindings(w2, o, Input).keys == PyDict.Dedup([]);
    LowerBodyOrder(w2, src, o, stmts, 0, []);
    assert [] + BodyReturnedNames(src, stmts, 0) == BodyReturnedNames(src, stmts, 0);
    var s := w'.operators[o].selfOperation;
    assert OperatorOk(w', o) && OperationOk(w', s);
    OperandsAreKeys(w', s, SelfBindings(w', o, Input));
  }
}
