# PyPiler lowering engine in Dafny

PyPiler lowers one Python function into a dataflow graph. Four kinds of
object make up the graph:

- an **operator**: a lowered function, or a primitive symbol such as `+`;
- an **operation**: one application inside an operator;
- a **carrier tuft**: a named value inside an operator;
- a **carrier binding**: a carrier wired to an operation as an input or an
  output under an operand name.

Every operator has a **self operation**. Its output bindings are the
function's parameters and its input bindings are the values the function
returns. A process-wide `operator_registry` maps names to operators.

## How the model is organised

The objects are records in arenas. Object identity is the arena index.

- `Graph` (graph.dfy) holds the arenas and the object constructors, as
  functions from one `World` to the next. It also holds
  `get_or_create_operator`, `constant_to_carrier` and the two
  operand-listing methods. It defines a well-formedness invariant `Valid`
  that every step preserves. It also defines frame predicates (`Grows`,
  `Preserves`, `OnlyAdds`) that say what a step leaves alone.
- `PyDict` (dict.dfy) models the binding maps as insertion-ordered
  dictionaries. Python's `dict.values()` order is observable through
  `get_input_operands` and `get_output_operands`.
- `Syntax` (syntax.dfy) models the parse tree, `node_source_code` and
  `node_to_identifier`.
- `Lowering` (lowering.dfy) models `parse_expression` as functions. An
  exception is a `Raised` outcome, and the graph built before it stays
  built.
- `FunctionLowering` (function.dfy) models the body of `parse_function`:
  the parameter loop, the statement loop and the return loop.
- `Pypiler.Runtime` (runtime.dfy) is the imperative program. The registry
  and the arenas are its fields. Every constructor and every function
  that changes the graph is a method that updates them in place, with the
  source's own `while` and `for` loops. The functions that only read
  (`node_source_code`, `node_to_identifier`, `get_input_operands`,
  `get_output_operands`) are the pure functions `Syntax.NodeSourceCode`,
  `Syntax.NodeToIdentifier`, `Graph.InputOperands` and
  `Graph.OutputOperands`. Each method is proved to produce exactly the
  state and the result that the functions above describe.

The model follows the code as written:

- There is no single-assignment check. A second carrier with the same name
  replaces the first in the operator's `carriers` map.
- There are no categorised errors. The failures are the Python exceptions
  the code actually raises:
  - `KeyError` for an unknown identifier;
  - `IndexError` for a node with too few children;
  - `AttributeError` when `None` is bound as a carrier.
- A returned carrier is bound under its own identifier, not under
  `output`. A `return` is not required to come last.
- Positional call arguments are skipped.
- Statements other than assignments and returns are skipped.
- An assignment lowers only its first right-hand expression, named after
  its first target.
- A literal or a bare identifier on the right of an assignment ignores the
  target, so `x = 1` creates no carrier `x`.
- Bindings are keyed by carrier identifier, so `a + a` keeps only one entry
  in the operation's input map.
- An empty target name is falsy, and the operation identifier is used
  instead.
- `return` walks every child of its second child, punctuation included. A
  child that `parse_expression` does not handle, such as a comma, gives
  `None`, and binding it raises `AttributeError`.

## Model

| member | source | states |
|---|---|---|
| PyDict.Put | pypiler/__init__.py:58-63 | assigning `d[k] = v` maps `k` to `v` and leaves every other key's value alone; an existing key keeps its place, and a new key is appended |
| PyDict.PutKeepsFirstInsertionOrder | pypiler/__init__.py:36-40 | after a run of assignments, the key order is the keys in order of first insertion, each once |
| Syntax.Slice | pypiler/__init__.py:92 | Python slicing: in-range bounds give `s[a..b]`, bounds past the end are clamped, and a reversed or out-of-range slice is empty |
| Syntax.NodeSourceCode | pypiler/__init__.py:91-92 | a node's text is the source between its start and end offsets when they lie in the source, and is never longer than the source |
| Syntax.DecimalRoundTrip | pypiler/__init__.py:94 | a line or column number written in decimal reads back as the same number |
| Syntax.NodeToIdentifier | pypiler/__init__.py:93-94 | an operation identifier starts with `(` followed by the node's source text, and is longer than that prefix |
| Syntax.NodeToIdentifierPosition | pypiler/__init__.py:93-94 | the identifier is `(code) line:column`, and its line and column read back as the node's one-based start position |
| Syntax.StripParens | pypiler/__init__.py:96-97 | stripping parentheses ends at a node that is not parenthesised and no taller than the input, or raises IndexError and nothing else; a node without parentheses comes back unchanged |
| Syntax.StripParensNested | pypiler/__init__.py:96-97 | a node wrapped in any number of parentheses strips to the same result as the node itself |
| Graph.EmptyWorld | pypiler/__init__.py:15 | the empty registry is a well-formed graph |
| Graph.NewOperator | pypiler/__init__.py:22-27 | a new operator is registered under its name, replacing any earlier entry; it has no carriers and exactly one operation, its self operation, stored under its own name with empty bindings |
| Graph.NewOperation | pypiler/__init__.py:43-48 | a new operation with empty bindings is appended and stored in its operator's `operations` under its identifier; nothing else changes |
| Graph.NewOperationUnbound | pypiler/__init__.py:43-48 | a new operation has no operands |
| Graph.NewCarrier | pypiler/__init__.py:69-74 | a new carrier without producer or consumers is appended and stored in its operator's `carriers` under its identifier, replacing an earlier carrier of that name |
| Graph.SetConstValue | pypiler/__init__.py:84 | storing a constant's value changes only that operation's value |
| Graph.Bind | pypiler/__init__.py:54-63 | an input binding appends to the carrier's consumers and sets the operation's input entry under the carrier's identifier; an output binding sets the carrier's producer and the output entry; nothing else changes, and the graph stays well formed |
| Graph.RebindSameCarrier | pypiler/__init__.py:58-60 | binding one carrier twice as input of one operation leaves one map entry, pointing at the second binding, though both bindings exist |
| Graph.GetOrCreateOperator | pypiler/__init__.py:16-19 | an existing name returns its operator and changes nothing; a new name adds exactly one registry entry, mapped to the fresh operator returned |
| Graph.ConstIdentifierInjective | pypiler/__init__.py:80 | a literal and an operator constant never share an identifier, and the identifier determines the literal text or the operator name |
| Graph.ConstIdentifier | pypiler/__init__.py:80 | a constant's identifier is `Literal<` or `OpConst<`, then the literal text or the operator's name, then `>`, so the text can be read back from it |
| Graph.NewConstant | pypiler/__init__.py:83-87 | when the memo misses, a new operation holding the value and a new carrier, both named after the constant, are stored in the operator's maps, and the operation produces the carrier under `output` |
| Graph.ConstantToCarrier | pypiler/__init__.py:79-87 | the result is the operator's carrier under the constant's identifier; if there was none, it is new and produced by a new operation with that identifier holding the value, under operand `output` |
| Graph.ConstantToCarrierIdempotent | pypiler/__init__.py:80-82 | a second call with the same value returns the same carrier and changes nothing |
| Graph.OperandsAreKeys | pypiler/__init__.py:36-40 | when every binding's operand is its key, the operand list is exactly the map's key order |
| Graph.InputOperands | pypiler/__init__.py:36-37 | the input operands are the operands of the self operation's output bindings, in map order |
| Graph.OutputOperands | pypiler/__init__.py:39-40 | the output operands are the operands of the self operation's input bindings, in map order |
| Lowering.OutputName | pypiler/__init__.py:117 | the output carrier is named after a non-empty assignment target, and otherwise after the operation; the name is never empty |
| Lowering.OperatorNode | pypiler/__init__.py:103-112 | the operator to apply is the first child of a call, unary or `not` node, and the second child of an infix node |
| Lowering.Lower | pypiler/__init__.py:95-119 | lowering keeps the graph well formed, leaves every existing operation alone, and any carrier it gives belongs to the operator |
| Lowering.LowerStripped | pypiler/__init__.py:98-119 | the same for a node without parentheses |
| Lowering.LowerApply | pypiler/__init__.py:102-119 | an applying node never gives `None` and changes only what it creates |
| Lowering.BindInput | pypiler/__init__.py:108-114 | an exception propagates, `None` raises AttributeError, both without changing the graph; a carrier adds exactly the operand to the operation |
| Lowering.LowerOperands | pypiler/__init__.py:104-114 | on success, the operator node is the callee or unary symbol, or the infix symbol, and the operation gains exactly the node's input operands |
| Lowering.LowerInfix | pypiler/__init__.py:112-114 | on success, an infix node has a right operand and the operation gains exactly `inputL` and `inputR` |
| Lowering.LowerInput | pypiler/__init__.py:110 | on success, the operation gains exactly the given operand |
| Lowering.LowerArguments | pypiler/__init__.py:105-108 | on success, the operation gains exactly the keywords of the keyword arguments; positional arguments add nothing |
| Lowering.BindOperator | pypiler/__init__.py:115-116 | the operator symbol is in the registry, and its `OpConst` carrier is an input of the operation under operand `operator` |
| Lowering.Produce | pypiler/__init__.py:117-118 | a new carrier with the given name is the operator's carrier of that name and is produced by the operation under operand `output` |
| Lowering.Apply | pypiler/__init__.py:115-119 | the result is a new carrier of the operator |
| Lowering.ApplyOutput | pypiler/__init__.py:117-119 | the new carrier's only producer is the operation, under `output`, stored in its output map under the carrier's name |
| Lowering.ApplyOperator | pypiler/__init__.py:115-116 | the applied operator is registered and its constant is bound under `operator` |
| Lowering.ApplyOperands | pypiler/__init__.py:115-118 | applying adds exactly the operands `operator` and `output` |
| Lowering.LowerParenthesized | pypiler/__init__.py:96-97 | a parenthesised node, at any depth, lowers exactly as the node inside |
| Lowering.LowerIdentifier | pypiler/__init__.py:100-101 | an identifier changes nothing; it gives the operator's current `carriers[name]` entry if there is one, and otherwise raises KeyError with the name |
| Lowering.LowerLiteral | pypiler/__init__.py:98-99 | a literal gives the operator's `carriers["Literal<text>"]` entry, the interned carrier, whatever the assignment target |
| Lowering.LowerNone | pypiler/__init__.py:95-119 | the result is `None` exactly for an unhandled node kind, and then nothing changes |
| Lowering.LowerAppliedOperation | pypiler/__init__.py:102-116 | an applying node creates one operation of the operator named `(code) line:column`; the operator symbol is registered, and its constant is bound under `operator` |
| Lowering.LowerAppliedOperands | pypiler/__init__.py:102-118 | that operation's operands are exactly the node's inputs plus `operator` and `output` |
| Lowering.LowerAppliedOutput | pypiler/__init__.py:117-119 | the result is a new carrier named after the target, or after the operation when there is none, produced by that operation under `output`, and it is now the operator's carrier of that name |
| Lowering.LowerName | pypiler/__init__.py:95-119 | a carrier lowered without a target is named as the syntax says: `Literal<text>` for a literal, the name for an identifier, `(code) line:column` for an applying node |
| Lowering.LowerInputBinds | pypiler/__init__.py:108-114 | binding one input appends exactly one binding, of the carrier `parse_expression` gave for the child, to the operation under the operand given |
| Lowering.LowerArgumentsBind | pypiler/__init__.py:106-108 | when the argument loop completes, each keyword argument's value carrier is bound under its keyword |
| Lowering.LowerAppliedInputs | pypiler/__init__.py:105-114 | the operation of an applying node binds each keyword argument's value under its keyword, a unary operand under `input`, and the left and right operands of an infix node under `inputL` and `inputR` |
| FunctionLowering.BindSelf | pypiler/__init__.py:128 | binding to the self operation puts the carrier's identifier into that direction's map and leaves the other map alone |
| FunctionLowering.LowerParams | pypiler/__init__.py:125-128 | the parameter loop leaves the self operation's input map alone and keeps every operand equal to its key |
| FunctionLowering.LowerParamsKeepsScope | pypiler/__init__.py:125-128 | the parameter loop keeps every name already in the operator's `carriers`, and every name the self operation already produces stays produced by it |
| FunctionLowering.LowerParamsScope | pypiler/__init__.py:125-128 | after the parameter loop every identifier parameter is a key of the operator's `carriers`, naming a carrier the self operation produces under that name |
| FunctionLowering.AddParam | pypiler/__init__.py:126-128 | one parameter adds its name to the self operation's output map, makes `carriers[name]` a new carrier, and makes the self operation produce it under `name` through a new binding; other self-produced names stay |
| FunctionLowering.LowerParamsOrder | pypiler/__init__.py:125-128 | the self operation's output keys are the parameter names, each once, in declaration order |
| FunctionLowering.LowerReturns | pypiler/__init__.py:134-136 | the return loop leaves the output map alone and only extends the input key order |
| FunctionLowering.LowerReturnsIdentifier | pypiler/__init__.py:134-136 | a returned identifier's name becomes an input key of the self operation |
| FunctionLowering.LowerReturnsOrder | pypiler/__init__.py:134-136 | the return loop appends the names of the returned expressions' carriers to the self operation's input keys, in order, each name once |
| FunctionLowering.LowerBody | pypiler/__init__.py:129-136 | the statement loop leaves the parameters alone and only extends the outputs |
| FunctionLowering.LowerBodyReturns | pypiler/__init__.py:129-136 | an identifier returned anywhere in the body is an output of the function |
| FunctionLowering.LowerBodyOrder | pypiler/__init__.py:129-136 | only `return` statements add outputs: the input keys become the earlier keys followed by the names of all returned expressions, each once |
| FunctionLowering.LowerFunction | pypiler/__init__.py:120-137 | on success, the function's operator is new and registered under the function's name |
| FunctionLowering.FunctionInputs | pypiler/__init__.py:124-128 | `get_input_operands` of a lowered function is its parameter names, each once, in declaration order |
| FunctionLowering.FunctionOutputs | pypiler/__init__.py:39-40 | `get_output_operands` of a lowered function lists distinct names, each the identifier of the carrier of the function bound under it |
| FunctionLowering.FunctionOutputNames | pypiler/__init__.py:129-136 | `get_output_operands` of a lowered function is the names of the carriers its `return` statements bind, each once, in the order they are first returned |
| FunctionLowering.FunctionReturns | pypiler/__init__.py:129-136 | every identifier a `return` of the body names is among the function's output operands |
| Pypiler.Runtime.constructor | pypiler/__init__.py:15 | the runtime starts with an empty registry and no objects |
| Pypiler.Runtime.NewOperator | pypiler/__init__.py:22-27 | the fields become exactly `Graph.NewOperator` of the old state |
| Pypiler.Runtime.NewOperation | pypiler/__init__.py:43-48 | the fields become exactly `Graph.NewOperation` of the old state |
| Pypiler.Runtime.NewCarrierTuft | pypiler/__init__.py:69-74 | the fields become exactly `Graph.NewCarrier` of the old state |
| Pypiler.Runtime.NewCarrierBinding | pypiler/__init__.py:54-63 | the fields become exactly `Graph.Bind` of the old state |
| Pypiler.Runtime.GetOrCreateOperator | pypiler/__init__.py:16-19 | the state and the result are those of `Graph.GetOrCreateOperator` |
| Pypiler.Runtime.ConstantToCarrier | pypiler/__init__.py:79-87 | the state and the result are those of `Graph.ConstantToCarrier` |
| Pypiler.Runtime.ParseExpression | pypiler/__init__.py:95-119 | the parenthesis loop and the branches give the state and the result of `Lowering.Lower` |
| Pypiler.Runtime.ParseApplied | pypiler/__init__.py:102-119 | the applying branch gives the state and the result of `Lowering.LowerApply` |
| Pypiler.Runtime.ParseOperands | pypiler/__init__.py:104-114 | operand binding gives the state and the result of `Lowering.LowerOperands` |
| Pypiler.Runtime.ParseArguments | pypiler/__init__.py:106-108 | the argument loop gives the state and the result of `Lowering.LowerArguments` |
| Pypiler.Runtime.ParseInput | pypiler/__init__.py:108-114 | lowering and binding one input gives the state and the result of `Lowering.LowerInput` |
| Pypiler.Runtime.ParseFunction | pypiler/__init__.py:120-137 | the state and the result are those of `FunctionLowering.LowerFunction` |
| Pypiler.Runtime.ParseParameters | pypiler/__init__.py:125-128 | the parameter loop gives the state of `FunctionLowering.LowerParams` |
| Pypiler.Runtime.AddParameter | pypiler/__init__.py:126-128 | one parameter gives the state of `FunctionLowering.AddParam` |
| Pypiler.Runtime.BindToSelf | pypiler/__init__.py:128 | binding to the self operation gives the state of `FunctionLowering.BindSelf` |
| Pypiler.Runtime.ParseBody | pypiler/__init__.py:129-136 | the statement loop gives the state and the result of `FunctionLowering.LowerBody` |
| Pypiler.Runtime.ParseReturn | pypiler/__init__.py:134-136 | the return loop gives the state and the result of `FunctionLowering.LowerReturns` |

## Left out

- Lines 1-13 build the tree-sitter library and the parser, which is I/O
  and foreign code. `inspect.getsource` (line 90) and `parser.parse`
  (line 120) are not modelled either. The source text and its parse tree
  are parameters of `ParseFunction`.
- The grammar of the parse tree is not modelled. A `Node` is any tree of
  kinds and children, and the model does what the code does on every shape,
  raising IndexError where the code would index past the children.
- Tree-sitter reports byte offsets, but Python slices the source string by
  character. `Syntax.NodeSourceCode` uses the offsets as character indices
  exactly as the code does, so it reproduces the code's slicing. On source
  with a multi-byte character before a node, the code itself returns the
  wrong text, and so does the model.
- Python object identity and aliasing are modelled by arena indices. The
  objects are not heap references.
- The `__repr__` methods (lines 29-34, 50-51, 65-66, 76-77) only format
  diagnostics.
- setup.py is packaging metadata and is not part of this model.
- Lowering.LowerAppliedInputs: identifies each bound carrier by its
  identifier, which the syntax determines. It does not say which carrier
  object that is when two carriers share a name. Such a carrier was
  replaced in the operator's `carriers` map by a later assignment.
  `Lowering.LowerInputBinds` names the exact carrier object for one input.
- Lowering.LowerAppliedOperation: states that the bound constant is named
  after the operator symbol, not that it holds the current registry entry.
  The memo is keyed by name, so it may still hold an earlier operator of
  the same name.
- Python's recursion limit is not modelled. `parse_expression` recurses
  once per nesting level, so a deeply nested expression, such as a long
  chain `a + a + ... + a`, raises RecursionError in Python. `Lowering.Lower`
  lowers it without error.
