/** The dataflow graph and the process-wide operator registry, as values.

    Every Python object the engine allocates lives in an arena of the
    `World`: an `Operator`, `Operation`, `CarrierTuft` or `CarrierBinding` is
    named by its index, so two references are the same object exactly when
    the indices are equal. The functions below are the constructors and
    helpers of the graph model, each taking the world before the call to the
    world after it. */
module Graph {
  import opened Outcomes
  import PyDict

  type OperatorId = nat
  type OperationId = nat
  type CarrierId = nat
  type BindingId = nat

  /** What a constant operation stands for: a literal's source text, or a
      reference to an operator object. */
  datatype ConstValue = Literal(text: string) | OperatorRef(operator: OperatorId)

  /** The `type` argument of `CarrierBinding`. */
  datatype Direction = Input | Output

  datatype Operator = Operator(
    identifier: string,
    operations: map<string, OperationId>,
    carriers: map<string, CarrierId>,
    selfOperation: OperationId)

  /** `value` is set only on the operations `constant_to_carrier` creates. */
  datatype Operation = Operation(
    operator: OperatorId,
    identifier: string,
    inputBindings: PyDict.Dict<BindingId>,
    outputBindings: PyDict.Dict<BindingId>,
    value: Option<ConstValue>)

  datatype CarrierTuft = CarrierTuft(
    operator: OperatorId,
    identifier: string,
    sourceBinding: Option<BindingId>,
    destinationBindings: seq<BindingId>)

  datatype CarrierBinding = CarrierBinding(carrier: CarrierId, operation: OperationId, operand: string)

  /** The module-level `operator_registry` and every object allocated so far. */
  datatype World = World(
    registry: map<string, OperatorId>,
    operators: seq<Operator>,
    operations: seq<Operation>,
    carriers: seq<CarrierTuft>,
    bindings: seq<CarrierBinding>)

  /** The state when the module has just been imported. */
  function EmptyWorld(): (w: World)
    ensures Valid(w)
  {
    World(map[], [], [], [], [])
  }

  // ---------------------------------------------------------------------
  // Well-formedness of the object graph

  /** Every registry entry is an operator whose identifier is its key. */
  ghost predicate RegistryOk(w: World) {
    forall name | name in w.registry ::
      w.registry[name] < |w.operators| && w.operators[w.registry[name]].identifier == name
  }

  /** An operator's maps hold its own operations and carriers, each under its
      own identifier, and its self operation carries the operator's name. */
  ghost predicate OperatorOk(w: World, o: nat)
    requires o < |w.operators|
  {
    var r := w.operators[o];
    && r.selfOperation < |w.operations|
    && w.operations[r.selfOperation].operator == o
    && w.operations[r.selfOperation].identifier == r.identifier
    && (forall k | k in r.operations ::
          r.operations[k] < |w.operations| && w.operations[r.operations[k]].operator == o
          && w.operations[r.operations[k]].identifier == k)
    && (forall k | k in r.carriers ::
          r.carriers[k] < |w.carriers| && w.carriers[r.carriers[k]].operator == o
          && w.carriers[r.carriers[k]].identifier == k)
  }

  /** A binding map of operation `p`: every key names a binding of `p` whose
      carrier has that key as its identifier. */
  ghost predicate KeyedByCarrier(w: World, p: nat, d: PyDict.Dict<BindingId>) {
    && PyDict.Valid(d)
    && forall k | k in d.entries ::
         d.entries[k] < |w.bindings| && w.bindings[d.entries[k]].operation == p
         && w.bindings[d.entries[k]].carrier < |w.carriers|
         && w.carriers[w.bindings[d.entries[k]].carrier].identifier == k
  }

  ghost predicate OperationOk(w: World, p: nat)
    requires p < |w.operations|
  {
    var r := w.operations[p];
    && r.operator < |w.operators|
    && KeyedByCarrier(w, p, r.inputBindings)
    && KeyedByCarrier(w, p, r.outputBindings)
    && (r.value.Some? && r.value.value.OperatorRef? ==> r.value.value.operator < |w.operators|)
  }

  /** A carrier's producer and consumers are bindings of that carrier. */
  ghost predicate CarrierOk(w: World, c: nat)
    requires c < |w.carriers|
  {
    var r := w.carriers[c];
    && r.operator < |w.operators|
    && (r.sourceBinding.Some? ==>
          r.sourceBinding.value < |w.bindings| && w.bindings[r.sourceBinding.value].carrier == c)
    && (forall i | 0 <= i < |r.destinationBindings| ::
          r.destinationBindings[i] < |w.bindings| && w.bindings[r.destinationBindings[i]].carrier == c)
  }

  /** A binding never crosses operator scopes. */
  ghost predicate BindingOk(w: World, b: nat)
    requires b < |w.bindings|
  {
    var r := w.bindings[b];
    r.carrier < |w.carriers| && r.operation < |w.operations|
    && w.carriers[r.carrier].operator == w.operations[r.operation].operator
  }

  ghost predicate Valid(w: World) {
    && RegistryOk(w)
    && (forall o | 0 <= o < |w.operators| :: OperatorOk(w, o))
    && (forall p | 0 <= p < |w.operations| :: OperationOk(w, p))
    && (forall c | 0 <= c < |w.carriers| :: CarrierOk(w, c))
    && (forall b | 0 <= b < |w.bindings| :: BindingOk(w, b))
  }

  /** Objects are never deleted and the attributes set at construction never
      change: arenas only grow, bindings are never rewritten, and a carrier's
      consumers are only ever appended to. */
  ghost predicate Grows(w: World, w': World) {
    && |w.operators| <= |w'.operators|
    && |w.operations| <= |w'.operations|
    && |w.carriers| <= |w'.carriers|
    && w.bindings <= w'.bindings
    && (forall o | 0 <= o < |w.operators| ::
          w'.operators[o].identifier == w.operators[o].identifier
          && w'.operators[o].selfOperation == w.operators[o].selfOperation)
    && (forall p | 0 <= p < |w.operations| ::
          w'.operations[p].operator == w.operations[p].operator
          && w'.operations[p].identifier == w.operations[p].identifier
          && w'.operations[p].value == w.operations[p].value)
    && (forall c | 0 <= c < |w.carriers| ::
          w'.carriers[c].operator == w.carriers[c].operator
          && w'.carriers[c].identifier == w.carriers[c].identifier
          && w.carriers[c].destinationBindings <= w'.carriers[c].destinationBindings)
  }

  /** What a step may do to the objects that existed before it, beyond
      `Grows`, when operations below `m` are out of its reach: the registry
      only gains entries, no operation below `m` is touched, no existing
      carrier gets a new producer, and every new binding belongs to an
      operation at or above `m`. */
  ghost predicate Preserves(w: World, w': World, m: nat) {
    && Grows(w, w')
    && (forall name | name in w.registry :: name in w'.registry && w'.registry[name] == w.registry[name])
    && (forall p | 0 <= p < m && p < |w.operations| :: w'.operations[p] == w.operations[p])
    && (forall c | 0 <= c < |w.carriers| :: w'.carriers[c].sourceBinding == w.carriers[c].sourceBinding)
    && (forall b | |w.bindings| <= b < |w'.bindings| :: w'.bindings[b].operation >= m)
  }

  /** A step that leaves every existing operation alone: what lowering an
      expression does to the graph built so far. */
  ghost predicate OnlyAdds(w: World, w': World) {
    Preserves(w, w', |w.operations|)
  }

  lemma GrowsTransitive(w1: World, w2: World, w3: World)
    requires Grows(w1, w2) && Grows(w2, w3)
    ensures Grows(w1, w3)
  {
  }

  lemma PreservesTransitive(w1: World, w2: World, w3: World, m: nat)
    requires Preserves(w1, w2, m) && Preserves(w2, w3, m)
    ensures Preserves(w1, w3, m)
  {
    GrowsTransitive(w1, w2, w3);
  }

  /** A step that leaves every existing operation alone leaves alone in
      particular those below any `m` up to their number. */
  lemma OnlyAddsPreserves(w: World, w': World, m: nat)
    requires OnlyAdds(w, w') && m <= |w.operations|
    ensures Preserves(w, w', m)
  {
  }

  lemma OnlyAddsTransitive(w1: World, w2: World, w3: World)
    requires OnlyAdds(w1, w2) && OnlyAdds(w2, w3)
    ensures OnlyAdds(w1, w3)
  {
    OnlyAddsPreserves(w2, w3, |w1.operations|);
    PreservesTransitive(w1, w2, w3, |w1.operations|);
  }

  // ---------------------------------------------------------------------
  // Constructors

  /** `Operator(identifier)`: registers the new operator under its
      identifier, replacing any earlier entry, and creates its self operation
      under the same identifier. */
  function NewOperator(w: World, name: string): (r: (World, OperatorId))
    requires Valid(w)
    ensures Valid(r.0) && Grows(w, r.0)
    ensures r.1 == |w.operators| && r.0.registry == w.registry[name := r.1]
    ensures |r.0.operators| == |w.operators| + 1
    ensures w.operators <= r.0.operators && w.operations <= r.0.operations
    ensures |r.0.operations| == |w.operations| + 1
    ensures var op := r.0.operators[r.1];
            && op.identifier == name && op.carriers == map[]
            && op.operations == map[name := op.selfOperation]
            && op.selfOperation == |w.operations|
            && r.0.operations[op.selfOperation] == Operation(r.1, name, PyDict.Empty(), PyDict.Empty(), None)
    ensures r.0.carriers == w.carriers && r.0.bindings == w.bindings
  {
    var o := |w.operators|;
    var p := |w.operations|;
    var r0 := World(w.registry[name := o],
                    w.operators + [Operator(name, map[name := p], map[], p)],
                    w.operations + [Operation(o, name, PyDict.Empty(), PyDict.Empty(), None)],
                    w.carriers, w.bindings);
    assert forall q | 0 <= q < |w.operations| :: r0.operations[q] == w.operations[q];
    assert forall q | 0 <= q < |w.operators| :: r0.operators[q] == w.operators[q];
    assert forall q | 0 <= q < |w.operators| :: OperatorOk(r0, q) by {
      forall q | 0 <= q < |w.operators| ensures OperatorOk(r0, q) {
        assert OperatorOk(w, q);
      }
    }
    assert forall q | 0 <= q < |w.operations| :: OperationOk(r0, q) by {
      forall q | 0 <= q < |w.operations| ensures OperationOk(r0, q) {
        assert OperationOk(w, q);
      }
    }
    assert forall c | 0 <= c < |w.carriers| :: CarrierOk(r0, c) by {
      forall c | 0 <= c < |w.carriers| ensures CarrierOk(r0, c) {
        assert CarrierOk(w, c);
      }
    }
    assert forall b | 0 <= b < |w.bindings| :: BindingOk(r0, b) by {
      forall b | 0 <= b < |w.bindings| ensures BindingOk(r0, b) {
        assert BindingOk(w, b);
      }
    }
    (r0, o)
  }

  /** `Operation(operator, identifier)`: a fresh operation without bindings,
      stored in its operator's `operations` map under its identifier (an
      earlier operation with the same identifier drops out of the map). */
  function NewOperation(w: World, o: OperatorId, id: string): (r: (World, OperationId))
    requires Valid(w) && o < |w.operators|
    ensures Valid(r.0) && OnlyAdds(w, r.0)
    ensures r.1 == |w.operations|
    ensures r.0.operations == w.operations + [Operation(o, id, PyDict.Empty(), PyDict.Empty(), None)]
    ensures |r.0.operators| == |w.operators|
    ensures r.0.operators[o].operations == w.operators[o].operations[id := r.1]
    ensures r.0.operators[o].carriers == w.operators[o].carriers
    ensures forall q | 0 <= q < |w.operators| && q != o :: r.0.operators[q] == w.operators[q]
    ensures r.0.registry == w.registry && r.0.carriers == w.carriers && r.0.bindings == w.bindings
  {
    var p := |w.operations|;
    var rec := w.operators[o];
    var r0 := w.(operators := w.operators[o := rec.(operations := rec.operations[id := p])],
                 operations := w.operations + [Operation(o, id, PyDict.Empty(), PyDict.Empty(), None)]);
    assert forall q | 0 <= q < |w.operations| :: r0.operations[q] == w.operations[q];
    assert forall q | 0 <= q < |w.operators| :: OperatorOk(r0, q) by {
      forall q | 0 <= q < |w.operators| ensures OperatorOk(r0, q) {
        assert OperatorOk(w, q);
      }
    }
    assert forall q | 0 <= q < |w.operations| :: OperationOk(r0, q) by {
      forall q | 0 <= q < |w.operations| ensures OperationOk(r0, q) {
        assert OperationOk(w, q);
      }
    }
    assert forall c | 0 <= c < |w.carriers| :: CarrierOk(r0, c) by {
      forall c | 0 <= c < |w.carriers| ensures CarrierOk(r0, c) {
        assert CarrierOk(w, c);
      }
    }
    assert forall b | 0 <= b < |w.bindings| :: BindingOk(r0, b) by {
      forall b | 0 <= b < |w.bindings| ensures BindingOk(r0, b) {
        assert BindingOk(w, b);
      }
    }
    (r0, p)
  }

  /** `CarrierTuft(operator, identifier)`: a fresh carrier with no producer
      and no consumers, stored in its operator's `carriers` map under its
      identifier. An earlier carrier with the same identifier silently drops
      out of the map: nothing checks for a second assignment. */
  function NewCarrier(w: World, o: OperatorId, id: string): (r: (World, CarrierId))
    requires Valid(w) && o < |w.operators|
    ensures Valid(r.0) && OnlyAdds(w, r.0)
    ensures r.1 == |w.carriers|
    ensures r.0.carriers == w.carriers + [CarrierTuft(o, id, None, [])]
    ensures |r.0.operators| == |w.operators|
    ensures r.0.operators[o].carriers == w.operators[o].carriers[id := r.1]
    ensures r.0.operators[o].operations == w.operators[o].operations
    ensures forall q | 0 <= q < |w.operators| && q != o :: r.0.operators[q] == w.operators[q]
    ensures r.0.registry == w.registry && r.0.operations == w.operations && r.0.bindings == w.bindings
  {
    var c := |w.carriers|;
    var rec := w.operators[o];
    var r0 := w.(operators := w.operators[o := rec.(carriers := rec.carriers[id := c])],
                 carriers := w.carriers + [CarrierTuft(o, id, None, [])]);
    assert forall d | 0 <= d < |w.carriers| :: r0.carriers[d] == w.carriers[d];
    assert forall q | 0 <= q < |w.operators| :: OperatorOk(r0, q) by {
      forall q | 0 <= q < |w.operators| ensures OperatorOk(r0, q) {
        assert OperatorOk(w, q);
      }
    }
    assert forall q | 0 <= q < |w.operations| :: OperationOk(r0, q) by {
      forall q | 0 <= q < |w.operations| ensures OperationOk(r0, q) {
        assert OperationOk(w, q);
      }
    }
    assert forall d | 0 <= d < |w.carriers| :: CarrierOk(r0, d) by {
      forall d | 0 <= d < |w.carriers| ensures CarrierOk(r0, d) {
        assert CarrierOk(w, d);
      }
    }
    assert forall b | 0 <= b < |w.bindings| :: BindingOk(r0, b) by {
      forall b | 0 <= b < |w.bindings| ensures BindingOk(r0, b) {
        assert BindingOk(w, b);
      }
    }
    (r0, c)
  }

  /** `operation.value = value`, done by `constant_to_carrier` on the
      operation it has just created. */
  function SetConstValue(w: World, p: OperationId, v: ConstValue): (r: World)
    requires Valid(w) && p < |w.operations|
    requires v.OperatorRef? ==> v.operator < |w.operators|
    ensures Valid(r)
    ensures r.operations == w.operations[p := w.operations[p].(value := Some(v))]
    ensures r.registry == w.registry && r.operators == w.operators
    ensures r.carriers == w.carriers && r.bindings == w.bindings
  {
    var r0 := w.(operations := w.operations[p := w.operations[p].(value := Some(v))]);
    assert forall q | 0 <= q < |w.operators| :: OperatorOk(r0, q) by {
      forall q | 0 <= q < |w.operators| ensures OperatorOk(r0, q) {
        assert OperatorOk(w, q);
      }
    }
    assert forall q | 0 <= q < |w.operations| :: OperationOk(r0, q) by {
      forall q | 0 <= q < |w.operations| ensures OperationOk(r0, q) {
        assert OperationOk(w, q);
      }
    }
    assert forall d | 0 <= d < |w.carriers| :: CarrierOk(r0, d) by {
      forall d | 0 <= d < |w.carriers| ensures CarrierOk(r0, d) {
        assert CarrierOk(w, d);
      }
    }
    assert forall b | 0 <= b < |w.bindings| :: BindingOk(r0, b) by {
      forall b | 0 <= b < |w.bindings| ensures BindingOk(r0, b) {
        assert BindingOk(w, b);
      }
    }
    r0
  }

  /** A binding map stays keyed by carrier identifiers when bindings are
      only appended and carriers keep their identifiers. */
  lemma KeyedByCarrierStable(w: World, w': World, p: nat, d: PyDict.Dict<BindingId>)
    requires KeyedByCarrier(w, p, d)
    requires w.bindings <= w'.bindings && |w.carriers| <= |w'.carriers|
    requires forall c | 0 <= c < |w.carriers| :: w'.carriers[c].identifier == w.carriers[c].identifier
    ensures KeyedByCarrier(w', p, d)
  {
    forall k | k in d.entries
      ensures d.entries[k] < |w'.bindings| && w'.bindings[d.entries[k]].operation == p
      ensures w'.bindings[d.entries[k]].carrier < |w'.carriers|
      ensures w'.carriers[w'.bindings[d.entries[k]].carrier].identifier == k
    {
      assert w'.bindings[d.entries[k]] == w.bindings[d.entries[k]];
    }
  }

  /** The shape of a world right after one more binding of carrier `c` to
      operation `p`: one binding appended, and only `c` and `p` changed, each
      at most by recording that binding. */
  ghost predicate BindShape(w: World, r: World, c: CarrierId, p: OperationId, operand: string)
    requires c < |w.carriers| && p < |w.operations|
    requires PyDict.Valid(w.operations[p].inputBindings) && PyDict.Valid(w.operations[p].outputBindings)
  {
    var b := |w.bindings|;
    var key := w.carriers[c].identifier;
    var car := w.carriers[c];
    var opn := w.operations[p];
    && r.registry == w.registry && r.operators == w.operators
    && r.bindings == w.bindings + [CarrierBinding(c, p, operand)]
    && |r.operations| == |w.operations| && |r.carriers| == |w.carriers|
    && (forall q | 0 <= q < |w.operations| && q != p :: r.operations[q] == w.operations[q])
    && (forall d | 0 <= d < |w.carriers| && d != c :: r.carriers[d] == w.carriers[d])
    && r.operations[p].operator == opn.operator && r.operations[p].identifier == opn.identifier
    && r.operations[p].value == opn.value
    && (r.operations[p].inputBindings == opn.inputBindings
        || r.operations[p].inputBindings == PyDict.Put(opn.inputBindings, key, b))
    && (r.operations[p].outputBindings == opn.outputBindings
        || r.operations[p].outputBindings == PyDict.Put(opn.outputBindings, key, b))
    && r.carriers[c].operator == car.operator && r.carriers[c].identifier == car.identifier
    && (r.carriers[c].sourceBinding == car.sourceBinding || r.carriers[c].sourceBinding == Some(b))
    && (r.carriers[c].destinationBindings == car.destinationBindings
        || r.carriers[c].destinationBindings == car.destinationBindings + [b])
  }

  lemma BindShapeOperators(w: World, r: World, c: CarrierId, p: OperationId, operand: string)
    requires Valid(w) && c < |w.carriers| && p < |w.operations|
    requires OperationOk(w, p) && BindShape(w, r, c, p, operand)
    ensures forall o | 0 <= o < |r.operators| :: OperatorOk(r, o)
    ensures RegistryOk(r)
  {
    forall o | 0 <= o < |r.operators| ensures OperatorOk(r, o) {
      assert OperatorOk(w, o);
    }
  }

  lemma BindShapeOperations(w: World, r: World, c: CarrierId, p: OperationId, operand: string)
    requires Valid(w) && c < |w.carriers| && p < |w.operations|
    requires w.carriers[c].operator == w.operations[p].operator
    requires OperationOk(w, p) && BindShape(w, r, c, p, operand)
    ensures forall q | 0 <= q < |r.operations| :: OperationOk(r, q)
  {
    assert forall d | 0 <= d < |w.carriers| :: r.carriers[d].identifier == w.carriers[d].identifier;
    forall q | 0 <= q < |r.operations| ensures OperationOk(r, q) {
      assert OperationOk(w, q);
      KeyedByCarrierStable(w, r, q, w.operations[q].inputBindings);
      KeyedByCarrierStable(w, r, q, w.operations[q].outputBindings);
    }
  }

  lemma BindShapeCarriers(w: World, r: World, c: CarrierId, p: OperationId, operand: string)
    requires Valid(w) && c < |w.carriers| && p < |w.operations|
    requires w.carriers[c].operator == w.operations[p].operator
    requires OperationOk(w, p) && BindShape(w, r, c, p, operand)
    ensures forall d | 0 <= d < |r.carriers| :: CarrierOk(r, d)
    ensures forall b | 0 <= b < |r.bindings| :: BindingOk(r, b)
  {
    forall d | 0 <= d < |r.carriers| ensures CarrierOk(r, d) {
      assert CarrierOk(w, d);
    }
    assert forall d | 0 <= d < |w.carriers| :: r.carriers[d].operator == w.carriers[d].operator;
    assert forall q | 0 <= q < |w.operations| :: r.operations[q].operator == w.operations[q].operator;
    forall b | 0 <= b < |r.bindings| ensures BindingOk(r, b) {
      if b < |w.bindings| { assert BindingOk(w, b); }
    }
  }

  lemma BindShapeValid(w: World, r: World, c: CarrierId, p: OperationId, operand: string)
    requires Valid(w) && c < |w.carriers| && p < |w.operations|
    requires w.carriers[c].operator == w.operations[p].operator
    requires OperationOk(w, p) && BindShape(w, r, c, p, operand)
    ensures Valid(r) && Grows(w, r)
  {
    BindShapeOperators(w, r, c, p, operand);
    BindShapeOperations(w, r, c, p, operand);
    BindShapeCarriers(w, r, c, p, operand);
  }

  /** `CarrierBinding(carrier, operation, operand, type)`. An input binding
      is appended to the carrier's consumers; an output binding becomes the
      carrier's producer, replacing any earlier one. Either way the
      operation's map for that direction gets the binding under the
      carrier's identifier, not under the operand, which is only stored in
      the binding. */
  function Bind(w: World, c: CarrierId, p: OperationId, operand: string, dir: Direction): (r: World)
    requires Valid(w) && c < |w.carriers| && p < |w.operations|
    requires w.carriers[c].operator == w.operations[p].operator
    ensures Valid(r) && Grows(w, r)
    ensures OperationOk(w, p) && BindShape(w, r, c, p, operand)
    ensures var key := w.carriers[c].identifier;
            var b := |w.bindings|;
            var car := w.carriers[c];
            var opn := w.operations[p];
            match dir
            case Input =>
              && r.carriers[c] == car.(destinationBindings := car.destinationBindings + [b])
              && r.operations[p] == opn.(inputBindings := PyDict.Put(opn.inputBindings, key, b))
            case Output =>
              && r.carriers[c] == car.(sourceBinding := Some(b))
              && r.operations[p] == opn.(outputBindings := PyDict.Put(opn.outputBindings, key, b))
  {
    var b := |w.bindings|;
    var key := w.carriers[c].identifier;
    var car := w.carriers[c];
    var opn := w.operations[p];
    assert OperationOk(w, p);
    var r0 := match dir
      case Input =>
        World(w.registry, w.operators,
              w.operations[p := opn.(inputBindings := PyDict.Put(opn.inputBindings, key, b))],
              w.carriers[c := car.(destinationBindings := car.destinationBindings + [b])],
              w.bindings + [CarrierBinding(c, p, operand)])
      case Output =>
        World(w.registry, w.operators,
              w.operations[p := opn.(outputBindings := PyDict.Put(opn.outputBindings, key, b))],
              w.carriers[c := car.(sourceBinding := Some(b))],
              w.bindings + [CarrierBinding(c, p, operand)]);
    BindShapeValid(w, r0, c, p, operand);
    r0
  }

  /** Two input bindings of one carrier to one operation share one key: the
      second replaces the first in the operation's map, although both
      bindings exist. This is what `a + a` does to `inputL`. */
  lemma RebindSameCarrier(w: World, c: CarrierId, p: OperationId, first: string, second: string)
    requires Valid(w) && c < |w.carriers| && p < |w.operations|
    requires w.carriers[c].operator == w.operations[p].operator
    ensures var w1 := Bind(w, c, p, first, Input);
            var w2 := Bind(w1, c, p, second, Input);
            var d := w2.operations[p].inputBindings;
            var key := w.carriers[c].identifier;
            && key in d.entries && d.entries[key] == |w.bindings| + 1
            && |w2.bindings| == |w.bindings| + 2
            && w2.bindings[|w.bindings|].operand == first && w2.bindings[|w.bindings| + 1].operand == second
            && d.keys == w1.operations[p].inputBindings.keys
  {
    var w1 := Bind(w, c, p, first, Input);
    assert w1.carriers[c].identifier == w.carriers[c].identifier;
  }

  /** Binding to an operation created after `w0` (and, for an output, a
      carrier created after `w0`) keeps everything that existed in `w0` as
      it was. */
  lemma BindFresh(w0: World, w: World, m: nat, c: CarrierId, p: OperationId, operand: string, dir: Direction)
    requires Valid(w) && c < |w.carriers| && p < |w.operations|
    requires w.carriers[c].operator == w.operations[p].operator
    requires Preserves(w0, w, m) && p >= m
    requires dir == Output ==> c >= |w0.carriers|
    ensures Preserves(w0, Bind(w, c, p, operand, dir), m)
  {
    var r := Bind(w, c, p, operand, dir);
    GrowsTransitive(w0, w, r);
    assert |r.bindings| == |w.bindings| + 1;
  }

  // ---------------------------------------------------------------------
  // Registry lookup and constants

  /** `get_or_create_operator(identifier)`. */
  function GetOrCreateOperator(w: World, name: string): (r: (World, OperatorId))
    requires Valid(w)
    ensures Valid(r.0) && OnlyAdds(w, r.0)
    ensures name in r.0.registry && r.0.registry[name] == r.1
    ensures r.1 < |r.0.operators| && r.0.operators[r.1].identifier == name
    ensures name in w.registry ==> r == (w, w.registry[name])
    ensures name !in w.registry ==>
              && r.1 == |w.operators|
              && r.0.registry == w.registry[name := r.1]
              && r.0.registry.Keys == w.registry.Keys + {name}
  {
    if name in w.registry then (w, w.registry[name])
    else NewOperator(w, name)
  }

  /** The identifier `constant_to_carrier` gives a constant:
      `OpConst<name>` for an operator, `Literal<text>` for a literal. */
  function ConstIdentifier(w: World, v: ConstValue): (r: string)
    requires v.OperatorRef? ==> v.operator < |w.operators|
    ensures |r| >= 9 && r[|r| - 1] == '>'
    ensures r[..8] == if v.Literal? then "Literal<" else "OpConst<"
    ensures r[8..|r| - 1] == if v.Literal? then v.text else w.operators[v.operator].identifier
  {
    match v
    case Literal(text) => "Literal<" + text + ">"
    case OperatorRef(o) => "OpConst<" + w.operators[o].identifier + ">"
  }

  /** A literal and an operator never get the same constant identifier, and
      within each kind the identifier determines the literal text or the
      operator's name. */
  lemma {:induction false} ConstIdentifierInjective(w: World, v1: ConstValue, v2: ConstValue)
    requires v1.OperatorRef? ==> v1.operator < |w.operators|
    requires v2.OperatorRef? ==> v2.operator < |w.operators|
    requires ConstIdentifier(w, v1) == ConstIdentifier(w, v2)
    ensures v1.Literal? <==> v2.Literal?
    ensures v1.Literal? ==> v1.text == v2.text
    ensures v1.OperatorRef? ==> w.operators[v1.operator].identifier == w.operators[v2.operator].identifier
  {
    var id := ConstIdentifier(w, v1);
    assert id[0] == if v1.Literal? then 'L' else 'O';
    assert ConstIdentifier(w, v2)[0] == if v2.Literal? then 'L' else 'O';
    var inner := id[8..|id| - 1];
    match v1
    case Literal(t) =>
      assert inner == t;
      assert inner == v2.text;
    case OperatorRef(o) =>
      assert inner == w.operators[o].identifier;
      assert inner == w.operators[v2.operator].identifier;
  }

  /** `constant_to_carrier(operator, value)`: the carrier of `operator`
      stored under the constant's identifier if there is one; otherwise a
      new constant operation holding `value`, a new carrier, both under that
      identifier, and an output binding with operand `output` from the one
      to the other. */
  function ConstantToCarrier(w: World, o: OperatorId, v: ConstValue): (r: (World, CarrierId))
    requires Valid(w) && o < |w.operators|
    requires v.OperatorRef? ==> v.operator < |w.operators|
    ensures Valid(r.0) && OnlyAdds(w, r.0) && r.0.registry == w.registry
    ensures var id := ConstIdentifier(w, v);
            && r.1 < |r.0.carriers| && r.0.carriers[r.1].operator == o
            && r.0.carriers[r.1].identifier == id
            && id in r.0.operators[o].carriers && r.0.operators[o].carriers[id] == r.1
    ensures var id := ConstIdentifier(w, v);
            id in w.operators[o].carriers ==> r == (w, w.operators[o].carriers[id])
    ensures var id := ConstIdentifier(w, v);
            var p := |w.operations|;
            var b := |w.bindings|;
            id !in w.operators[o].carriers ==>
              && r.1 == |w.carriers|
              && p < |r.0.operations| && b < |r.0.bindings|
              && r.0.operations[p].operator == o && r.0.operations[p].identifier == id
              && r.0.operations[p].value == Some(v)
              && id in r.0.operators[o].operations && r.0.operators[o].operations[id] == p
              && r.0.carriers[r.1].sourceBinding.Some? && r.0.carriers[r.1].sourceBinding.value == b
              && r.0.bindings[b] == CarrierBinding(r.1, p, "output")
  {
    var id := ConstIdentifier(w, v);
    if id in w.operators[o].carriers then
      assert OperatorOk(w, o);
      (w, w.operators[o].carriers[id])
    else
      NewConstant(w, o, v, id)
  }

  /** The part of `constant_to_carrier` after the lookup fails: a constant
      operation holding `value`, a carrier, both named `id`, and the output
      binding from the one to the other. */
  function NewConstant(w: World, o: OperatorId, v: ConstValue, id: string): (r: (World, CarrierId))
    requires Valid(w) && o < |w.operators|
    requires v.OperatorRef? ==> v.operator < |w.operators|
    ensures Valid(r.0) && OnlyAdds(w, r.0) && r.0.registry == w.registry
    ensures var p := |w.operations|;
            var b := |w.bindings|;
            && r.1 == |w.carriers| && r.1 < |r.0.carriers| && r.0.carriers[r.1].operator == o
            && r.0.carriers[r.1].identifier == id
            && id in r.0.operators[o].carriers && r.0.operators[o].carriers[id] == r.1
            && p < |r.0.operations| && b < |r.0.bindings|
            && r.0.operations[p].operator == o && r.0.operations[p].identifier == id
            && r.0.operations[p].value == Some(v)
            && id in r.0.operators[o].operations && r.0.operators[o].operations[id] == p
            && r.0.carriers[r.1].sourceBinding.Some? && r.0.carriers[r.1].sourceBinding.value == b
            && r.0.bindings[b] == CarrierBinding(r.1, p, "output")
  {
    var (w1, p) := NewOperation(w, o, id);
    var w2 := SetConstValue(w1, p, v);
    var (w3, c) := NewCarrier(w2, o, id);
    var w4 := Bind(w3, c, p, "output", Output);
    assert OnlyAdds(w, w2);
    OnlyAddsTransitive(w, w2, w3);
    BindFresh(w, w3, |w.operations|, c, p, "output", Output);
    (w4, c)
  }


  /** A second `constant_to_carrier` for the same value and operator returns
      the carrier the first one returned and changes nothing. */
  lemma {:induction false} ConstantToCarrierIdempotent(w: World, o: OperatorId, v: ConstValue)
    requires Valid(w) && o < |w.operators|
    requires v.OperatorRef? ==> v.operator < |w.operators|
    ensures var (w1, c) := ConstantToCarrier(w, o, v);
            ConstantToCarrier(w1, o, v) == (w1, c)
  {
    var (w1, c) := ConstantToCarrier(w, o, v);
    assert ConstIdentifier(w1, v) == ConstIdentifier(w, v);
  }

  // ---------------------------------------------------------------------
  // The operator's interface

  /** The operands of the bindings in a binding map, in the map's order. */
  function Operands(w: World, p: OperationId, d: PyDict.Dict<BindingId>): (r: seq<string>)
    requires KeyedByCarrier(w, p, d)
    ensures |r| == |d.keys|
    ensures forall i | 0 <= i < |r| :: r[i] == w.bindings[d.entries[d.keys[i]]].operand
  {
    var vals := PyDict.Values(d);
    seq(|vals|, i requires 0 <= i < |vals| => w.bindings[vals[i]].operand)
  }

  /** When every binding in a map was made with its carrier's identifier as
      operand, the operands listed are exactly the map's keys. */
  lemma OperandsAreKeys(w: World, p: OperationId, d: PyDict.Dict<BindingId>)
    requires KeyedByCarrier(w, p, d)
    requires forall k | k in d.entries :: w.bindings[d.entries[k]].operand == k
    ensures Operands(w, p, d) == d.keys
  {
    var r := Operands(w, p, d);
    forall i | 0 <= i < |r| ensures r[i] == d.keys[i] {
      assert d.keys[i] in d.entries;
    }
  }

  /** `get_input_operands`: the operands of the self operation's output
      bindings, in insertion order. */
  function InputOperands(w: World, o: OperatorId): (r: seq<string>)
    requires Valid(w) && o < |w.operators|
    ensures OperatorOk(w, o) && OperationOk(w, w.operators[o].selfOperation)
    ensures var d := w.operations[w.operators[o].selfOperation].outputBindings;
            |r| == |d.keys| && forall i | 0 <= i < |r| :: r[i] == w.bindings[d.entries[d.keys[i]]].operand
  {
    assert OperatorOk(w, o);
    var s := w.operators[o].selfOperation;
    assert OperationOk(w, s);
    Operands(w, s, w.operations[s].outputBindings)
  }

  /** `get_output_operands`: the operands of the self operation's input
      bindings, in insertion order. */
  function OutputOperands(w: World, o: OperatorId): (r: seq<string>)
    requires Valid(w) && o < |w.operators|
    ensures OperatorOk(w, o) && OperationOk(w, w.operators[o].selfOperation)
    ensures var d := w.operations[w.operators[o].selfOperation].inputBindings;
            |r| == |d.keys| && forall i | 0 <= i < |r| :: r[i] == w.bindings[d.entries[d.keys[i]]].operand
  {
    assert OperatorOk(w, o);
    var s := w.operators[o].selfOperation;
    assert OperationOk(w, s);
    Operands(w, s, w.operations[s].inputBindings)
  }

  /** Every operand name some binding attaches to operation `p`. */
  ghost function OperandsOf(w: World, p: OperationId): set<string> {
    set b | 0 <= b < |w.bindings| && w.bindings[b].operation == p :: w.bindings[b].operand
  }

  /** Appending one binding adds its operand to its operation's operands and
      to no other operation's. */
  lemma OperandsOfAppend(w: World, w': World, x: CarrierBinding, p: OperationId)
    requires w'.bindings == w.bindings + [x]
    ensures OperandsOf(w', p) == OperandsOf(w, p) + (if x.operation == p then {x.operand} else {})
  {
    var n := |w.bindings|;
    assert w'.bindings[n] == x;
    forall s | s in OperandsOf(w', p)
      ensures s in OperandsOf(w, p) + (if x.operation == p then {x.operand} else {})
    {
      var b :| 0 <= b < |w'.bindings| && w'.bindings[b].operation == p && w'.bindings[b].operand == s;
      if b < n { assert w.bindings[b] == w'.bindings[b]; }
    }
    forall s | s in OperandsOf(w, p) ensures s in OperandsOf(w', p) {
      var b :| 0 <= b < |w.bindings| && w.bindings[b].operation == p && w.bindings[b].operand == s;
      assert w'.bindings[b] == w.bindings[b];
    }
  }

  /** A step that only binds to operations at or above `m` leaves the
      operands of the operations below `m` as they were. */
  lemma OperandsOfPreserved(w: World, w': World, m: nat, p: OperationId)
    requires Preserves(w, w', m) && p < m
    ensures OperandsOf(w', p) == OperandsOf(w, p)
  {
    forall s | s in OperandsOf(w', p) ensures s in OperandsOf(w, p) {
      var b :| 0 <= b < |w'.bindings| && w'.bindings[b].operation == p && w'.bindings[b].operand == s;
      assert b < |w.bindings|;
      assert w.bindings[b] == w'.bindings[b];
    }
    forall s | s in OperandsOf(w, p) ensures s in OperandsOf(w', p) {
      var b :| 0 <= b < |w.bindings| && w.bindings[b].operation == p && w.bindings[b].operand == s;
      assert w'.bindings[b] == w.bindings[b];
    }
  }

  /** No binding refers to an operation that does not exist yet. */
  lemma OperandsOfFresh(w: World)
    requires Valid(w)
    ensures OperandsOf(w, |w.operations|) == {}
  {
    forall b | 0 <= b < |w.bindings| ensures w.bindings[b].operation != |w.operations| {
      assert BindingOk(w, b);
    }
  }
  /** A new operation starts without operands. */
  lemma NewOperationUnbound(w: World, o: OperatorId, id: string)
    requires Valid(w) && o < |w.operators|
    ensures OperandsOf(NewOperation(w, o, id).0, |w.operations|) == {}
  {
    OperandsOfFresh(w);
    var w' := NewOperation(w, o, id).0;
    assert w'.bindings == w.bindings;
    assert OperandsOf(w', |w.operations|) == OperandsOf(w, |w.operations|);
  }

}
