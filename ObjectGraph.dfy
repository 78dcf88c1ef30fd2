/** The object graph the saving library walks. Python objects become an arena of
    nodes indexed by `nat` (an index plays the part of `id(obj)`); `dir(obj)` and
    `getattr` become each node's declared attribute list, in `dir` order; the
    `isinstance` tests of `_is_keras_trackable` and of the container check become
    the constructors of `Value` and `Elem`. */
module ObjectGraph {
  import opened Results
  import opened Paths

  /** A node's own numeric state, as its variable hooks write and read it. */
  type Vars = map<string, seq<int>>

  /** One item that iterating a container yields. */
  datatype Elem = Trackable(id: nat) | NotTrackable

  /** What `getattr(node, name)` gives. */
  datatype Value =
    | Child(id: nat)               // a layer, optimizer, metric or loss
    | Container(elems: seq<Elem>)  // a list, dict, tuple or set, as iteration yields it
    | Unreadable                   // the attribute access raised
    | Plain                        // any other value

  datatype Attr = Attr(name: string, value: Value)

  /** Which of `_save_own_variables`, `_load_own_variables`, `_save_assets` and
      `_load_assets` the node's class defines. */
  datatype Hooks = Hooks(saveVars: bool, loadVars: bool, saveAssets: bool, loadAssets: bool)

  /** A node: its class name, its attributes in `dir` order, its hooks, the
      variables its variable hooks persist, and the files its asset hook writes. */
  datatype Node = Node(className: string, attrs: seq<Attr>, hooks: Hooks, vars: Vars, assetFiles: set<string>)

  type Graph = seq<Node>

  /** `ATTR_SKIPLIST`: attributes that alias state reachable elsewhere or whose
      access has side effects, in the order the source lists them (it lists
      "_non_trainable_weights" twice). Only membership matters. */
  const AttrSkiplist: seq<string> := [
    "_callable_losses",
    "_captured_weight_regularizer",
    "_checkpoint_dependencies",
    "_deferred_dependencies",
    "_eager_losses",
    "_inbound_nodes",
    "_inbound_nodes_value",
    "_output_layers",
    "_input_layers",
    "_keras_api_names",
    "_keras_api_names_v1",
    "_name_based_restores",
    "_non_trainable_weights",
    "_outbound_nodes",
    "_outbound_nodes_value",
    "_saved_model_arg_spec",
    "_self_name_based_restores",
    "_self_saveable_object_factories",
    "_self_tracked_trackables",
    "_self_unconditional_checkpoint_dependencies",
    "_self_unconditional_deferred_dependencies",
    "_self_unconditional_dependency_names",
    "_tf_api_names",
    "_tf_api_names_v1",
    "_trainable_weights",
    "_non_trainable_weights",
    "_unconditional_checkpoint_dependencies",
    "_unconditional_dependency_names",
    "_updates",
    "inbound_nodes",
    "submodules",
    "weights",
    "non_trainable_weights",
    "trainable_weights",
    "variables",
    "non_trainable_variables",
    "trainable_variables",
    "updates",
    "state_updates"
  ]

  /** The walk's filter on attribute names: dunder names and skip-listed names. */
  predicate Skipped(name: string)
  {
    StartsWith(name, "__") || name in AttrSkiplist
  }

  predicate ElemsRefsIn(es: seq<Elem>, size: nat)
  {
    forall k :: 0 <= k < |es| ==> (es[k].Trackable? ==> es[k].id < size)
  }

  predicate ValueRefsIn(v: Value, size: nat)
  {
    match v
    case Child(c) => c < size
    case Container(es) => ElemsRefsIn(es, size)
    case _ => true
  }

  predicate AttrsRefsIn(attrs: seq<Attr>, size: nat)
  {
    forall k :: 0 <= k < |attrs| ==> ValueRefsIn(attrs[k].value, size)
  }

  /** Every reference of the arena names one of its nodes. */
  predicate ValidGraph(g: Graph)
  {
    forall i :: 0 <= i < |g| ==> AttrsRefsIn(g[i].attrs, |g|)
  }

  /** The snake-cased class name of a container item, `None` for an item that
      is not trackable. */
  function Label(g: Graph, snake: string -> string, e: Elem): Option<string>
  {
    if e.Trackable? && e.id < |g| then Some(snake(g[e.id].className)) else None
  }

  function Labels(g: Graph, snake: string -> string, es: seq<Elem>): (ls: seq<Option<string>>)
    ensures |ls| == |es|
  {
    seq(|es|, k requires 0 <= k < |es| => Label(g, snake, es[k]))
  }

  /** An attribute the walk can descend into: not skipped, and holding a
      trackable or a container. */
  predicate IsTraversable(a: Attr)
  {
    !Skipped(a.name) && (a.value.Child? || a.value.Container?)
  }

  /** The traversable attributes, in order: exactly those attributes that
      are traversable, and no others. */
  function Traversable(attrs: seq<Attr>): (r: seq<Attr>)
    ensures |r| <= |attrs|
    ensures forall k :: 0 <= k < |r| ==> r[k] in attrs && IsTraversable(r[k])
    ensures forall a :: a in r <==> a in attrs && IsTraversable(a)
  {
    if attrs == [] then []
    else if IsTraversable(attrs[0]) then [attrs[0]] + Traversable(attrs[1..])
    else Traversable(attrs[1..])
  }

  /** Filtering keeps the order of the attributes: the traversable
      attributes of a concatenation are those of each part, one after the
      other. */
  lemma {:induction false} TraversableConcat(a: seq<Attr>, b: seq<Attr>)
    ensures Traversable(a + b) == Traversable(a) + Traversable(b)
    decreases |a|
  {
    if a != [] {
      assert (a + b)[0] == a[0] && (a + b)[1..] == a[1..] + b;
      TraversableConcat(a[1..], b);
    } else {
      assert a + b == b;
    }
  }

  /** Two graphs the walk cannot tell apart: same arena size and, node by node,
      the same class and the same traversable attributes. Numeric state, asset
      files, hooks and ignored attributes may differ. */
  predicate SameShape(g1: Graph, g2: Graph)
  {
    |g1| == |g2| &&
    forall i :: 0 <= i < |g1| ==>
      g1[i].className == g2[i].className && Traversable(g1[i].attrs) == Traversable(g2[i].attrs)
  }

  /** Attribute names as `dir` yields them (distinct, non-empty, no slash) and
      snake-cased class names that are path components without a numeric suffix. */
  predicate WellNamed(g: Graph, snake: string -> string)
  {
    forall i :: 0 <= i < |g| ==>
      && Segment(snake(g[i].className))
      && !HasNumericSuffix(snake(g[i].className))
      && (forall k :: 0 <= k < |g[i].attrs| ==> Segment(g[i].attrs[k].name))
      && (forall j, k :: 0 <= j < k < |g[i].attrs| ==> g[i].attrs[j].name != g[i].attrs[k].name)
  }
}
