/** JSON values, container nesting, and the explicit-stack depth test. */
module JsonValues {
  /** Member names: those the kernels read or write, then all that start with an underscore and all the rest, each by
      its number in some fixed enumeration, so that a name has one representation. */
  datatype Key =
    | SpecVersion | SignatureAlg | PublicKey | Signature | CoSignatures | BodyHash | Body | BodyType
    | Verdict | Status | Summary | Counts | AsOf | GeneratedAt | Issuer | IssuerKind | IssuerId | Gateway
    | PreviousHash | Checkpoints | Events | TxId | RecordBytes | Envelope | MerkleRoot | Event | EventId
    | Inclusion | CheckpointTxId | LeafHash | LeafIndex | LeafCount | AuditPath | Content | ContentHash
    | Payload | PayloadHash | EventType | Hash | Baseline | Observed | SourceBundleHash | SourceBundle
    | Attestations | KernelVerdict | ExportSchema | Operator | Level | DataHash | SubjectRef | Kty | N | E
    | SchemaVersion | SignatureOk | PayloadBound | InclusionOk | ContentOk | MerkleRootOk | OnChain
    | CustodyChain | OperatorAddressBound | DataHashBound | SubjectRefOk | Rollup | OnChainOk | PerGateway
    | Outcome | Verified | Failed | Undetermined | CheckpointEnvelope | Leaf
    | Annotation(id: nat) | Other(id: nat)

  datatype Json =
    | JNull
    | JBool(b: bool)
    | JInt(n: int)
    | JFloat(v: real)
    | JStr(s: string)
    | JArr(items: seq<Json>)
    | JObj(fields: map<Key, Json>)

  function Fields(j: Json): map<Key, Json> {
    if j.JObj? then j.fields else map[]
  }

  function Items(j: Json): seq<Json> {
    if j.JArr? then j.items else []
  }

  /** Member access that answers null for an absent member and on anything but an object. */
  function Get(j: Json, k: Key): (v: Json)
    ensures v != JNull ==> j.JObj? && k in j.fields && v == j.fields[k]
  {
    if k in Fields(j) then Fields(j)[k] else JNull
  }

  function StrOr(j: Json, default: string): string {
    if j.JStr? then j.s else default
  }

  predicate IsContainer(j: Json) {
    j.JArr? || j.JObj?
  }

  ghost predicate IsChild(c: Json, j: Json) {
    c in Items(j) || c in Fields(j).Values
  }

  // ----- nesting -----

  function Max(a: nat, b: nat): nat {
    if a > b then a else b
  }

  /** How many containers lie on the deepest path from the root; a scalar has none. */
  ghost function Depth(j: Json): nat
    decreases j, 1
  {
    match j
    case JArr(items) => 1 + DepthOfItems(j, |items|)
    case JObj(fields) => 1 + DepthOfKeys(j, fields.Keys)
    case _ => 0
  }

  ghost function DepthOfItems(j: Json, i: nat): nat
    requires j.JArr? && i <= |j.items|
    decreases j, 0, i
  {
    if i == 0 then 0 else Max(DepthOfItems(j, i - 1), Depth(j.items[i - 1]))
  }

  ghost function DepthOfKeys(j: Json, ks: set<Key>): nat
    requires j.JObj? && ks <= j.fields.Keys
    decreases j, 0, |ks|
  {
    if ks == {} then 0
    else
      var k :| k in ks;
      Max(DepthOfKeys(j, ks - {k}), Depth(j.fields[k]))
  }

  lemma {:induction false} DepthOfItemsIsMax(j: Json, i: nat, d: nat)
    requires j.JArr? && i <= |j.items|
    ensures DepthOfItems(j, i) > d <==> exists x :: 0 <= x < i && Depth(j.items[x]) > d
  {
    if i > 0 {
      DepthOfItemsIsMax(j, i - 1, d);
    }
  }

  lemma {:induction false} DepthOfKeysIsMax(j: Json, ks: set<Key>, d: nat)
    requires j.JObj? && ks <= j.fields.Keys
    ensures DepthOfKeys(j, ks) > d <==> exists k :: k in ks && Depth(j.fields[k]) > d
    decreases |ks|
  {
    if ks != {} {
      var k := DeepestPick(j, ks);
      DepthOfKeysIsMax(j, ks - {k}, d);
    }
  }

  lemma DeepestPick(j: Json, ks: set<Key>) returns (k: Key)
    requires j.JObj? && ks <= j.fields.Keys && ks != {}
    ensures k in ks && DepthOfKeys(j, ks) == Max(DepthOfKeys(j, ks - {k}), Depth(j.fields[k]))
  {
    k :| k in ks && DepthOfKeys(j, ks) == Max(DepthOfKeys(j, ks - {k}), Depth(j.fields[k]));
  }

  /** A container is one deeper than its deepest child. */
  lemma DepthByChildren(j: Json, d: nat)
    requires IsContainer(j)
    ensures Depth(j) > 0
    ensures Depth(j) > d + 1 <==> exists c :: IsChild(c, j) && Depth(c) > d
  {
    if j.JArr? {
      DepthOfItemsIsMax(j, |j.items|, d);
      if x :| 0 <= x < |j.items| && Depth(j.items[x]) > d {
        assert IsChild(j.items[x], j);
      }
    } else {
      DepthOfKeysIsMax(j, j.fields.Keys, d);
      if k :| k in j.fields.Keys && Depth(j.fields[k]) > d {
        assert IsChild(j.fields[k], j);
      }
    }
  }

  lemma ChildDepth(c: Json, j: Json)
    requires IsChild(c, j)
    ensures Depth(c) + 1 <= Depth(j)
  {
    if Depth(c) > 0 {
      DepthByChildren(j, Depth(c) - 1);
    } else {
      DepthByChildren(j, 0);
    }
  }

  lemma GetDepth(j: Json, k: Key)
    ensures Depth(Get(j, k)) <= Depth(j)
    ensures Get(j, k) != JNull ==> Depth(Get(j, k)) + 1 <= Depth(j)
  {
    if Get(j, k) != JNull {
      ChildDepth(Get(j, k), j);
    }
  }

  /** The recursive test behind the specifications of the verifiers. */
  predicate Nests(j: Json, d: nat) {
    match j
    case JArr(items) => d == 0 || exists c | c in items :: Nests(c, d - 1)
    case JObj(fields) => d == 0 || exists k | k in fields :: Nests(fields[k], d - 1)
    case _ => false
  }

  lemma NestedChild(j: Json, d: nat)
    requires d > 0 && Nests(j, d)
    ensures exists c :: IsChild(c, j) && Nests(c, d - 1)
  {
    if j.JArr? {
      var c :| c in j.items && Nests(c, d - 1);
      assert IsChild(c, j);
    } else {
      var k :| k in j.fields && Nests(j.fields[k], d - 1);
      assert IsChild(j.fields[k], j);
    }
  }

  lemma {:induction false} NestsIsDepth(j: Json, d: nat)
    ensures Nests(j, d) <==> Depth(j) > d
  {
    if IsContainer(j) {
      DepthByChildren(j, if d > 0 then d - 1 else 0);
      if d > 0 {
        forall c | IsChild(c, j)
          ensures Nests(c, d - 1) <==> Depth(c) > d - 1
        {
          assert c < j;
          NestsIsDepth(c, d - 1);
        }
        if Nests(j, d) {
          NestedChild(j, d);
        }
        if c :| IsChild(c, j) && Depth(c) > d - 1 {
          assert Nests(c, d - 1);
        }
      }
    }
  }

  // ----- the stack walk -----

  /** One unit for the node itself and one for every node below it. */
  ghost function Size(j: Json): nat
    decreases j, 1
  {
    match j
    case JArr(items) => 1 + SizeOfItems(j, |items|)
    case JObj(fields) => 1 + SizeOfKeys(j, fields.Keys)
    case _ => 1
  }

  ghost function SizeOfItems(j: Json, i: nat): nat
    requires j.JArr? && i <= |j.items|
    decreases j, 0, i
  {
    if i == 0 then 0 else SizeOfItems(j, i - 1) + Size(j.items[i - 1])
  }

  ghost function SizeOfKeys(j: Json, ks: set<Key>): nat
    requires j.JObj? && ks <= j.fields.Keys
    decreases j, 0, |ks|
  {
    if ks == {} then 0
    else
      var k :| k in ks;
      SizeOfKeys(j, ks - {k}) + Size(j.fields[k])
  }

  lemma {:induction false} SizeOfKeysPick(j: Json, ks: set<Key>, k: Key)
    requires j.JObj? && ks <= j.fields.Keys && k in ks
    ensures SizeOfKeys(j, ks) == SizeOfKeys(j, ks - {k}) + Size(j.fields[k])
    decreases |ks|
  {
    var k' := PickedKey(j, ks);
    if k' != k {
      SizeOfKeysPick(j, ks - {k'}, k);
      SizeOfKeysPick(j, ks - {k}, k');
      assert ks - {k'} - {k} == ks - {k} - {k'};
    }
  }

  lemma PickedKey(j: Json, ks: set<Key>) returns (k: Key)
    requires j.JObj? && ks <= j.fields.Keys && ks != {}
    ensures k in ks && SizeOfKeys(j, ks) == SizeOfKeys(j, ks - {k}) + Size(j.fields[k])
  {
    k :| k in ks && SizeOfKeys(j, ks) == SizeOfKeys(j, ks - {k}) + Size(j.fields[k]);
  }

  ghost function StackSize(stack: seq<(Json, int)>): nat {
    if stack == [] then 0
    else StackSize(stack[..|stack| - 1]) + Size(stack[|stack| - 1].0)
  }

  lemma StackSizePush(stack: seq<(Json, int)>, entry: (Json, int))
    ensures StackSize(stack + [entry]) == StackSize(stack) + Size(entry.0)
  {
    assert (stack + [entry])[..|stack|] == stack;
  }

  /** The entry holds a container that reaches below the bound. */
  ghost predicate Over(entry: (Json, int), max: int) {
    IsContainer(entry.0) && Depth(entry.0) + entry.1 - 1 > max
  }

  ghost predicate AnyOver(stack: seq<(Json, int)>, max: int) {
    exists e :: e in stack && Over(e, max)
  }

  lemma AnyOverPush(stack: seq<(Json, int)>, entry: (Json, int), max: int)
    ensures AnyOver(stack + [entry], max) <==> AnyOver(stack, max) || Over(entry, max)
  {
    assert entry in stack + [entry];
    forall e | e in stack ensures e in stack + [entry] {}
  }

  /** What one expansion step does to the answer: a container within the bound is over exactly when a child is. */
  lemma OverByChildren(node: Json, depth: int, max: int)
    requires IsContainer(node) && 1 <= depth <= max
    ensures Over((node, depth), max) <==> exists c :: IsChild(c, node) && Over((c, depth + 1), max)
  {
    var d := max - depth;
    DepthByChildren(node, d);
    if c :| IsChild(c, node) && Depth(c) > d {
      assert Over((c, depth + 1), max);
    }
  }

  method ExceedsDepth(value: Json, maxDepth: int) returns (deep: bool)
    ensures deep <==> IsContainer(value) && Depth(value) > maxDepth
  {
    var stack := [(value, 1)];
    assert stack[..0] == [];
    AnyOverPush([], (value, 1), maxDepth);
    assert [] + [(value, 1)] == stack;
    while stack != []
      invariant AnyOver(stack, maxDepth) <==> IsContainer(value) && Depth(value) > maxDepth
      invariant forall e :: e in stack ==> e.1 >= 1
      decreases StackSize(stack)
    {
      var (node, depth) := stack[|stack| - 1];
      ghost var whole := stack;
      stack := stack[..|stack| - 1];
      assert whole == stack + [(node, depth)];
      AnyOverPush(stack, (node, depth), maxDepth);
      if IsContainer(node) {
        if depth > maxDepth {
          DepthByChildren(node, 0);
          assert Over((node, depth), maxDepth);
          return true;
        }
        OverByChildren(node, depth, maxDepth);
        stack := PushChildren(stack, node, depth + 1, maxDepth);
      }
    }
    return false;
  }

  /** Every child goes on the stack, in whatever order the container yields them. */
  method PushChildren(base: seq<(Json, int)>, node: Json, depth: int, ghost max: int) returns (stack: seq<(Json, int)>)
    requires IsContainer(node) && depth >= 1
    requires forall e :: e in base ==> e.1 >= 1
    ensures forall e :: e in stack ==> e.1 >= 1
    ensures StackSize(stack) + 1 == StackSize(base) + Size(node)
    ensures AnyOver(stack, max) <==> AnyOver(base, max) || exists c :: IsChild(c, node) && Over((c, depth), max)
  {
    hide StackSize, SizeOfItems, SizeOfKeys, AnyOver, Over;
    if node.JArr? {
      stack := PushItems(base, node, depth, max);
      forall x | 0 <= x < |node.items| ensures IsChild(node.items[x], node) {}
    } else {
      stack := PushMembers(base, node, depth, max);
      forall k | k in node.fields.Keys ensures IsChild(node.fields[k], node) {}
    }
  }

  method PushItems(base: seq<(Json, int)>, node: Json, depth: int, ghost max: int) returns (stack: seq<(Json, int)>)
    requires node.JArr? && depth >= 1
    requires forall e :: e in base ==> e.1 >= 1
    ensures forall e :: e in stack ==> e.1 >= 1
    ensures StackSize(stack) == StackSize(base) + SizeOfItems(node, |node.items|)
    ensures AnyOver(stack, max)
            <==> AnyOver(base, max) || exists x :: 0 <= x < |node.items| && Over((node.items[x], depth), max)
  {
    hide StackSize, Size, AnyOver, Over;
    stack := base;
    for i := 0 to |node.items|
      invariant forall e :: e in stack ==> e.1 >= 1
      invariant StackSize(stack) == StackSize(base) + SizeOfItems(node, i)
      invariant AnyOver(stack, max)
                <==> AnyOver(base, max) || exists x :: 0 <= x < i && Over((node.items[x], depth), max)
    {
      StackSizePush(stack, (node.items[i], depth));
      AnyOverPush(stack, (node.items[i], depth), max);
      stack := stack + [(node.items[i], depth)];
    }
  }

  method PushMembers(base: seq<(Json, int)>, node: Json, depth: int, ghost max: int) returns (stack: seq<(Json, int)>)
    requires node.JObj? && depth >= 1
    requires forall e :: e in base ==> e.1 >= 1
    ensures forall e :: e in stack ==> e.1 >= 1
    ensures StackSize(stack) == StackSize(base) + SizeOfKeys(node, node.fields.Keys)
    ensures AnyOver(stack, max)
            <==> AnyOver(base, max) || exists k :: k in node.fields.Keys && Over((node.fields[k], depth), max)
  {
    hide StackSize, Size, SizeOfKeys, AnyOver, Over;
    stack := base;
    var rest := node.fields.Keys;
    NoKeysLeft(node);
    while rest != {}
      invariant rest <= node.fields.Keys
      invariant forall e :: e in stack ==> e.1 >= 1
      invariant StackSize(stack) + SizeOfKeys(node, rest) == StackSize(base) + SizeOfKeys(node, node.fields.Keys)
      invariant AnyOver(stack, max)
                <==> AnyOver(base, max)
                     || exists k :: k in node.fields.Keys - rest && Over((node.fields[k], depth), max)
      decreases rest
    {
      var k :| k in rest;
      SizeOfKeysPick(node, rest, k);
      StackSizePush(stack, (node.fields[k], depth));
      AnyOverPush(stack, (node.fields[k], depth), max);
      stack := stack + [(node.fields[k], depth)];
      rest := rest - {k};
    }
    assert node.fields.Keys - rest == node.fields.Keys;
  }

  lemma NoKeysLeft(j: Json)
    requires j.JObj?
    ensures SizeOfKeys(j, {}) == 0
  {
  }
}
