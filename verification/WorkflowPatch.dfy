/**
 Loading, patching and un-patching workflow documents (src/dage.cpp).

 A document is its top-level members with the nodes apart; a node is a JSON object.
 Validation and compilation are predicates on documents; the digest is a function of
 the document without its revision. JsonCpp's operator[] inserts a null member when it
 is missing, and the model does the same where the code does.
 */
module WorkflowPatch {
  import opened Base
  import opened Decimal
  import opened Json
  import opened CanonicalJson

  type Node = map<string, Json>

  datatype Doc = Doc(members: map<string, Json>, nodes: map<string, Node>)

  /** What the engine decides about documents. */
  datatype Engine = Engine(valid: Doc -> bool, compiles: Doc -> bool, digest: Doc -> string)

  datatype PatchError =
    | BaseDigestRequired | BaseDigestMismatch | InvalidBaseRevision | BaseRevisionMismatch | InvalidChanges
    | NodeIdRequired | EntryNotFound | NodeNotObject | NodeAlreadyExists | NodeNotFound
    | NewNodeIdRequired | FieldRequired | FieldNotFound | IndexInvalid | IndexOutOfRange
    | InvalidWorkflow | InvalidFieldType

  datatype Change =
    | SetEntry(value: Json)
    | AddNode(id: string, node: Json)
    | RemoveNode(id: string)
    | ReplaceNode(id: string, node: Json)
    | RenameNode(id: string, newId: string)
    | SetField(id: string, field: string, value: Json)
    | RemoveField(id: string, field: string)
    | SetNext(id: string, value: Json)
    | SetOnError(id: string, value: Json)
    | EnableNode(id: string)
    | DisableNode(id: string)
    | InsertNext(id: string, index: Option<Json>, value: Json)
    | RemoveNext(id: string, index: Option<Json>)

  datatype Patch = Patch(baseDigest: string, baseRevision: Option<Json>, changes: seq<Change>)

  const U32 := 0x1_0000_0000

  // ---------------------------------------------------------------- load

  /** Json::Value::asString; None is the exception on arrays and objects. */
  function AsString(j: Json): Option<string> {
    match j
    case Null => Some("")
    case Bool(b) => Some(if b then "true" else "false")
    case Int(n) => Some(Decimals(n))
    case Str(s) => Some(s)
    case _ => None
  }

  /** A reference may be any scalar, and is then the text JsonCpp gives it. */
  lemma ScalarsHaveText(n: nat, s: string, items: seq<Json>, members: map<string, Json>)
    ensures AsString(Null) == Some("") && AsString(Bool(true)) == Some("true") && AsString(Bool(false)) == Some("false")
    ensures AsString(Int(n)) == Some(Digits(n)) && (n > 0 ==> AsString(Int(0 - n)) == Some("-" + Digits(n)))
    ensures AsString(Str(s)) == Some(s) && AsString(Arr(items)).None? && AsString(Obj(members)).None?
  {
  }

  predicate HasType(n: Node, types: set<string>) {
    "type" in n && n["type"].Str? && n["type"].text in types
  }

  function Effects(kind: string): Json {
    Obj(map["kind" := Str(kind), "replay" := Str("safe")])
  }

  function WithDefault(n: Node, key: string, value: Json): Node {
    if key in n then n else n[key := value]
  }

  function Inherit(n: Node, key: string, defaults: map<string, Json>): Node {
    if key in defaults then WithDefault(n, key, defaults[key]) else n
  }

  /** The effects a node of this type has when it declares none. */
  function ImpliedEffects(n: Node): map<string, Json> {
    if HasType(n, {"llm"}) then map["effects" := Effects("external_read")]
    else if HasType(n, {"transform", "condition", "noop"}) then map["effects" := Effects("pure")]
    else map[]
  }

  function NormalizeNode(id: string, n: Node, defaults: map<string, Json>): Node {
    var named := WithDefault(WithDefault(n, "name", Str(id)), "enabled", Bool(true));
    var typed := Inherit(named, "effects", ImpliedEffects(n));
    Inherit(Inherit(typed, "timeout_ms", defaults), "retry", defaults)
  }

  predicate SelfContained(n: Node) {
    "timeout_ms" in n && "retry" in n
  }

  /** Some node makes load look into the defaults. */
  predicate NeedsDefaults(nodes: map<string, Node>) {
    exists id :: id in nodes && !SelfContained(nodes[id])
  }

  function DefaultsOf(members: map<string, Json>): map<string, Json> {
    if "defaults" in members && members["defaults"].Obj? then members["defaults"].members else map[]
  }

  /** Looking into missing defaults inserts a null member at the top level. */
  function Normalize(d: Doc): Result<Doc, PatchError> {
    var looks := NeedsDefaults(d.nodes);
    if looks && "defaults" in d.members && !d.members["defaults"].Null? && !d.members["defaults"].Obj? then
      Failure(InvalidFieldType)
    else
      var members := if looks && "defaults" !in d.members then d.members["defaults" := Null] else d.members;
      Success(Doc(members, map id | id in d.nodes :: NormalizeNode(id, d.nodes[id], DefaultsOf(d.members))))
  }

  function Load(e: Engine, d: Doc): Result<Doc, PatchError> {
    if !e.valid(d) then Failure(InvalidWorkflow)
    else
      match Normalize(d)
      case Failure(error) => Failure(error)
      case Success(w) => if e.compiles(w) then Success(w) else Failure(InvalidWorkflow)
  }

  /** What normalization adds to a node never hides or changes what it had. */
  lemma NormalizeNodeKeeps(id: string, n: Node, defaults: map<string, Json>)
    ensures var once := NormalizeNode(id, n, defaults);
            && (forall k :: k in n ==> k in once && once[k] == n[k])
            && (forall k :: k in once ==> k in n || k in {"name", "enabled", "effects", "timeout_ms", "retry"})
  {
  }

  lemma FilledNames()
    ensures "name" != "enabled" && "name" != "effects" && "name" != "timeout_ms" && "name" != "retry"
    ensures "enabled" != "effects" && "enabled" != "timeout_ms" && "enabled" != "retry"
    ensures "effects" != "timeout_ms" && "effects" != "retry" && "timeout_ms" != "retry"
  {
    assert |"name"| == 4 && |"enabled"| == 7 && |"effects"| == 7 && |"timeout_ms"| == 10 && |"retry"| == 5;
    assert "enabled"[1] != "effects"[1];
  }

  /** A member is the node's own, or else what `fill` supplies. */
  ghost predicate FilledFrom(m: Node, n: Node, key: string, fill: map<string, Json>) {
    && (key in m <==> key in n || key in fill)
    && (key in m ==> m[key] == if key in n then n[key] else fill[key])
  }

  /** What load fills in: name, enabled flag, effects implied by the type, inherited timeout and retry. */
  lemma NormalizeNodeFills(id: string, n: Node, defaults: map<string, Json>)
    ensures var m := NormalizeNode(id, n, defaults);
            && FilledFrom(m, n, "name", map["name" := Str(id)])
            && FilledFrom(m, n, "enabled", map["enabled" := Bool(true)])
            && FilledFrom(m, n, "effects", ImpliedEffects(n))
            && FilledFrom(m, n, "timeout_ms", defaults)
            && FilledFrom(m, n, "retry", defaults)
  {
    FilledNames();
  }

  lemma TypeIsKept(id: string, n: Node, defaults: map<string, Json>)
    ensures ImpliedEffects(NormalizeNode(id, n, defaults)) == ImpliedEffects(n)
  {
    NormalizeNodeKeeps(id, n, defaults);
    assert "type"[0] != "name"[0] && |"type"| != |"enabled"| && |"type"| != |"effects"|
           && |"type"| != |"timeout_ms"| && |"type"| != |"retry"|;
  }

  lemma NormalizeNodeTwice(id: string, n: Node, defaults: map<string, Json>)
    ensures NormalizeNode(id, NormalizeNode(id, n, defaults), defaults) == NormalizeNode(id, n, defaults)
  {
    var once := NormalizeNode(id, n, defaults);
    TypeIsKept(id, n, defaults);
    assert "name" in once && "enabled" in once;
    assert "effects" in ImpliedEffects(n) ==> "effects" in once;
    assert "timeout_ms" in defaults ==> "timeout_ms" in once;
    assert "retry" in defaults ==> "retry" in once;
  }

  /** A loaded document is normal: loading it again changes nothing. */
  lemma NormalizeTwice(d: Doc)
    requires Normalize(d).Success?
    ensures Normalize(Normalize(d).value) == Normalize(d)
  {
    NodesAreNormal(d);
    DefaultsAreKept(d);
    NormalIsFixed(Normalize(d).value, DefaultsOf(d.members));
  }

  lemma NodesAreNormal(d: Doc)
    requires Normalize(d).Success?
    ensures var once := Normalize(d).value;
            forall id :: id in once.nodes ==>
              && id in d.nodes && NormalizeNode(id, once.nodes[id], DefaultsOf(d.members)) == once.nodes[id]
              && (SelfContained(d.nodes[id]) ==> SelfContained(once.nodes[id]))
  {
    var once, defaults := Normalize(d).value, DefaultsOf(d.members);
    forall id | id in once.nodes
      ensures id in d.nodes && NormalizeNode(id, once.nodes[id], defaults) == once.nodes[id]
      ensures SelfContained(d.nodes[id]) ==> SelfContained(once.nodes[id])
    {
      NormalizeNodeTwice(id, d.nodes[id], defaults);
      NormalizeNodeKeeps(id, d.nodes[id], defaults);
    }
  }

  lemma DefaultsAreKept(d: Doc)
    requires Normalize(d).Success?
    ensures var once := Normalize(d).value;
            && DefaultsOf(once.members) == DefaultsOf(d.members)
            && (NeedsDefaults(once.nodes) ==>
                  "defaults" in once.members && (once.members["defaults"].Null? || once.members["defaults"].Obj?))
  {
    NodesAreNormal(d);
    var once := Normalize(d).value;
    if id :| id in once.nodes && !SelfContained(once.nodes[id]) {
      assert id in d.nodes && !SelfContained(d.nodes[id]);
    }
  }

  lemma NormalIsFixed(d: Doc, defaults: map<string, Json>)
    requires defaults == DefaultsOf(d.members)
    requires NeedsDefaults(d.nodes) ==> "defaults" in d.members && (d.members["defaults"].Null? || d.members["defaults"].Obj?)
    requires forall id :: id in d.nodes ==> NormalizeNode(id, d.nodes[id], defaults) == d.nodes[id]
    ensures Normalize(d) == Success(d)
  {
    assert Normalize(d).value.nodes == d.nodes;
  }

  // ---------------------------------------------------------------- apply

  /** The edge at one place, with its target renamed; None is asString's exception. */
  function RenameEdge(edge: Json, from: string, to: string): Option<Json> {
    match edge
    case Str(s) => Some(if s == from then Str(to) else edge)
    case Obj(m) =>
      (match AsString(if "to" in m then m["to"] else Str(""))
       case None => None
       case Some(target) => Some(if target == from then Obj(m["to" := Str(to)]) else edge))
    case _ => Some(edge)
  }

  function RenameAll(items: seq<Json>, rename: Json -> Option<Json>): Option<seq<Json>> {
    if items == [] then Some([])
    else
      match (rename(items[0]), RenameAll(items[1..], rename))
      case (Some(head), Some(tail)) => Some([head] + tail)
      case _ => None
  }

  /** rename_edge_targets. */
  function RenameTargets(n: Node, field: string, from: string, to: string): Option<Node> {
    if field !in n then Some(n)
    else if n[field].Arr? then
      match RenameAll(n[field].items, e => RenameEdge(e, from, to))
      case None => None
      case Some(items) => Some(n[field := Arr(items)])
    else
      match RenameEdge(n[field], from, to)
      case None => None
      case Some(edge) => Some(n[field := edge])
  }

  function RenameName(name: Json, from: string, to: string): Option<Json> {
    match AsString(name)
    case None => None
    case Some(s) => Some(if s == from then Str(to) else name)
  }

  function RenameJoin(n: Node, from: string, to: string): Option<Node> {
    if "join" !in n then Some(n)
    else
      match RenameName(n["join"], from, to)
      case None => None
      case Some(join) => Some(n["join" := join])
  }

  /** Looking at missing branches inserts a null member. */
  function RenameBranches(n: Node, from: string, to: string): Option<Node> {
    if "branches" !in n then Some(n["branches" := Null])
    else if !n["branches"].Arr? then Some(n)
    else
      match RenameAll(n["branches"].items, b => RenameName(b, from, to))
      case None => None
      case Some(items) => Some(n["branches" := Arr(items)])
  }

  function RenameInNode(n: Node, from: string, to: string): Option<Node> {
    match RenameTargets(n, "next", from, to)
    case None => None
    case Some(n1) =>
      match RenameTargets(n1, "on_error", from, to)
      case None => None
      case Some(n2) =>
        match RenameJoin(n2, from, to)
        case None => None
        case Some(n3) => RenameBranches(n3, from, to)
  }

  function Rename(d: Doc, id: string, to: string): Result<Doc, PatchError> {
    if to == "" then Failure(NewNodeIdRequired)
    else if id !in d.nodes then Failure(NodeNotFound)
    else if to in d.nodes then Failure(NodeAlreadyExists)
    else
      var moved := d.nodes[to := d.nodes[id]] - {id};
      var entry := AsString(if "entry" in d.members then d.members["entry"] else Null);
      if entry.None? || exists n :: n in moved && RenameInNode(moved[n], id, to).None? then Failure(InvalidFieldType)
      else
        var members := if entry.value == id then d.members["entry" := Str(to)]
                       else WithDefault(d.members, "entry", Null);
        Success(Doc(members, map n | n in moved :: RenameInNode(moved[n], id, to).value))
  }

  /** The existing node gets one member. */
  function Put(d: Doc, id: string, field: string, value: Json): Result<Doc, PatchError> {
    if id !in d.nodes then Failure(NodeNotFound)
    else Success(d.(nodes := d.nodes[id := d.nodes[id][field := value]]))
  }

  predicate IsIndex(index: Option<Json>) {
    index.Some? && index.value.Int? && 0 <= index.value.number < U64
  }

  function NextOf(n: Node): seq<Json> {
    if "next" !in n || n["next"].Null? then [] else if n["next"].Arr? then n["next"].items else [n["next"]]
  }

  function Insert(d: Doc, id: string, index: Option<Json>, value: Json): Result<Doc, PatchError> {
    if id !in d.nodes then Failure(NodeNotFound)
    else if index.Some? && !IsIndex(index) then Failure(IndexInvalid)
    else if index.Some? && index.value.number >= U32 then Failure(InvalidFieldType)
    else
      var next := NextOf(d.nodes[id]);
      var p := if index.Some? && index.value.number < |next| then index.value.number else |next|;
      Put(d, id, "next", Arr(next[..p] + [value] + next[p..]))
  }

  function Remove(d: Doc, id: string, index: Option<Json>): Result<Doc, PatchError> {
    if id !in d.nodes then Failure(NodeNotFound)
    else if !IsIndex(index) then Failure(IndexInvalid)
    else if index.value.number >= U32 then Failure(InvalidFieldType)
    else if "next" !in d.nodes[id] || !d.nodes[id]["next"].Arr? || index.value.number >= |d.nodes[id]["next"].items| then
      Failure(IndexOutOfRange)
    else
      var next, p := d.nodes[id]["next"].items, index.value.number;
      Put(d, id, "next", Arr(next[..p] + next[p + 1..]))
  }

  function ApplyChange(d: Doc, c: Change): Result<Doc, PatchError> {
    if !c.SetEntry? && c.id == "" then Failure(NodeIdRequired)
    else
      match c
      case SetEntry(value) =>
        if value.Str? && value.text in d.nodes then Success(d.(members := d.members["entry" := value]))
        else Failure(EntryNotFound)
      case AddNode(id, node) =>
        if !node.Obj? then Failure(NodeNotObject)
        else if id in d.nodes then Failure(NodeAlreadyExists)
        else Success(d.(nodes := d.nodes[id := node.members]))
      case RemoveNode(id) =>
        if id !in d.nodes then Failure(NodeNotFound) else Success(d.(nodes := d.nodes - {id}))
      case ReplaceNode(id, node) =>
        if !node.Obj? then Failure(NodeNotObject)
        else if id !in d.nodes then Failure(NodeNotFound)
        else Success(d.(nodes := d.nodes[id := node.members]))
      case RenameNode(id, to) => Rename(d, id, to)
      case SetField(id, field, value) => if field == "" then Failure(FieldRequired) else Put(d, id, field, value)
      case RemoveField(id, field) =>
        if field == "" then Failure(FieldRequired)
        else if id !in d.nodes then Failure(NodeNotFound)
        else if field !in d.nodes[id] then Failure(FieldNotFound)
        else Success(d.(nodes := d.nodes[id := d.nodes[id] - {field}]))
      case SetNext(id, value) => Put(d, id, "next", value)
      case SetOnError(id, value) => Put(d, id, "on_error", value)
      case EnableNode(id) => Put(d, id, "enabled", Bool(true))
      case DisableNode(id) => Put(d, id, "enabled", Bool(false))
      case InsertNext(id, index, value) => Insert(d, id, index, value)
      case RemoveNext(id, index) => Remove(d, id, index)
  }

  function ApplyAll(d: Doc, changes: seq<Change>): Result<Doc, PatchError>
    decreases changes
  {
    if changes == [] then Success(d)
    else
      match ApplyChange(d, changes[0])
      case Failure(e) => Failure(e)
      case Success(next) => ApplyAll(next, changes[1..])
  }

  /** asUInt64 of x_revision; None is its exception. */
  function RevisionOf(members: map<string, Json>): Option<nat> {
    if "x_revision" !in members then Some(0)
    else
      match members["x_revision"]
      case Null => Some(0)
      case Bool(b) => Some(if b then 1 else 0)
      case Int(n) => if 0 <= n < U64 then Some(n) else None
      case _ => None
  }

  function NextRevision(n: nat): Json {
    Int(if n + 1 == U64 then 0 else n + 1)
  }

  /** The document the digest is taken of. */
  function Semantic(d: Doc): Doc {
    d.(members := d.members - {"x_revision"})
  }

  function DigestOf(e: Engine, d: Doc): string {
    e.digest(Semantic(d))
  }

  function CheckBase(e: Engine, w: Doc, p: Patch): Option<PatchError> {
    if p.baseDigest == "" then Some(BaseDigestRequired)
    else if p.baseDigest != DigestOf(e, w) then Some(BaseDigestMismatch)
    else if RevisionOf(w.members).None? then Some(InvalidFieldType)
    else if p.baseRevision.Some? && !IsIndex(p.baseRevision) then Some(InvalidBaseRevision)
    else if p.baseRevision.Some? && p.baseRevision.value.number != RevisionOf(w.members).value then Some(BaseRevisionMismatch)
    else if p.changes == [] then Some(InvalidChanges)
    else None
  }

  /** The patched document, before it is loaded. */
  function Bump(d: Doc): Result<Doc, PatchError> {
    match RevisionOf(d.members)
    case None => Failure(InvalidFieldType)
    case Some(n) => Success(d.(members := d.members["x_revision" := NextRevision(n)]))
  }

  function ApplyPatch(e: Engine, w: Doc, p: Patch): Result<Doc, PatchError> {
    match CheckBase(e, w, p)
    case Some(error) => Failure(error)
    case None =>
      match ApplyAll(w, p.changes)
      case Failure(error) => Failure(error)
      case Success(d) =>
        match Bump(d)
        case Failure(error) => Failure(error)
        case Success(bumped) => Load(e, bumped)
  }

  /** Engine::apply_patch: the changes are applied to one document in place. */
  method Apply(e: Engine, w: Doc, p: Patch) returns (answer: Result<Doc, PatchError>)
    ensures answer == ApplyPatch(e, w, p)
  {
    var refused := CheckBase(e, w, p);
    if refused.Some? {
      return Failure(refused.value);
    }
    var root := w;
    assert p.changes[0..] == p.changes;
    for i := 0 to |p.changes|
      invariant ApplyAll(root, p.changes[i..]) == ApplyAll(w, p.changes)
    {
      assert p.changes[i..][0] == p.changes[i] && p.changes[i..][1..] == p.changes[i + 1..];
      var next := ApplyChange(root, p.changes[i]);
      if next.Failure? {
        return Failure(next.error);
      }
      root := next.value;
    }
    var bumped := Bump(root);
    if bumped.Failure? {
      return Failure(bumped.error);
    }
    answer := Load(e, bumped.value);
  }

  // ---------------------------------------------------------------- inverse

  function EntryOf(d: Doc): Json {
    if "entry" in d.members then d.members["entry"] else Null
  }

  function UndoEntry(before: Doc, after: Doc): seq<Change> {
    if EntryOf(before) == EntryOf(after) then [] else [SetEntry(EntryOf(before))]
  }

  function UndoNode(before: map<string, Node>, after: map<string, Node>, id: string): seq<Change>
    requires id in before || id in after
  {
    if id in before && id in after && before[id] == after[id] then []
    else if id !in before then [RemoveNode(id)]
    else if id !in after then [AddNode(id, Obj(before[id]))]
    else [ReplaceNode(id, Obj(before[id]))]
  }

  function UndoNodes(before: map<string, Node>, after: map<string, Node>, names: seq<string>): seq<Change>
    requires forall id :: id in names ==> id in before || id in after
  {
    if names == [] then [] else UndoNode(before, after, names[0]) + UndoNodes(before, after, names[1..])
  }

  ghost function UndoChanges(before: Doc, after: Doc): seq<Change> {
    UndoEntry(before, after) + UndoNodes(before.nodes, after.nodes, SortedKeys(before.nodes.Keys + after.nodes.Keys))
  }

  ghost function Inverse(e: Engine, before: Doc, after: Doc): Patch {
    var revision := RevisionOf(after.members);
    Patch(DigestOf(e, after), Some(Int(if revision.Some? then revision.value else 0)), UndoChanges(before, after))
  }

  /** The inverse patch as analyze_patch collects it, over the union of the node names in key order. */
  method BuildInverse(e: Engine, before: Doc, after: Doc) returns (inverse: Patch)
    ensures inverse == Inverse(e, before, after)
  {
    var changes := UndoEntry(before, after);
    var names := SortedNames(before.nodes.Keys + after.nodes.Keys);
    ghost var all := changes + UndoNodes(before.nodes, after.nodes, names);
    assert names[0..] == names;
    for i := 0 to |names|
      invariant changes + UndoNodes(before.nodes, after.nodes, names[i..]) == all
    {
      assert names[i..][0] == names[i] && names[i..][1..] == names[i + 1..];
      AssocChanges(changes, UndoNode(before.nodes, after.nodes, names[i]), UndoNodes(before.nodes, after.nodes, names[i + 1..]));
      changes := changes + UndoNode(before.nodes, after.nodes, names[i]);
    }
    assert changes == all;
    var revision := RevisionOf(after.members);
    inverse := Patch(DigestOf(e, after), Some(Int(if revision.Some? then revision.value else 0)), changes);
  }

  lemma AssocChanges(a: seq<Change>, b: seq<Change>, c: seq<Change>)
    ensures (a + b) + c == a + (b + c)
  {
  }

  method SortedNames(keys: set<string>) returns (names: seq<string>)
    ensures names == SortedKeys(keys)
  {
    var listed: seq<string> := [];
    var left := keys;
    while left != {}
      invariant left <= keys
      invariant forall k :: k in listed <==> k in keys && k !in left
      invariant forall i, j :: 0 <= i < j < |listed| ==> listed[i] != listed[j]
      decreases |left|
    {
      var k :| k in left;
      listed := listed + [k];
      left := left - {k};
    }
    names := SortKeys(listed);
    assert (set k | k in listed) == keys;
  }

  // ---------------------------------------------------------------- what a patch can touch

  /** Top-level members apart from the entry are the same. */
  ghost predicate SameTop(a: Doc, b: Doc) {
    a.members - {"entry"} == b.members - {"entry"} && ("entry" in a.members ==> "entry" in b.members)
  }

  lemma ChangeKeepsTop(d: Doc, c: Change)
    requires ApplyChange(d, c).Success?
    ensures SameTop(d, ApplyChange(d, c).value)
  {
    var t := ApplyChange(d, c).value;
    assert t.members == d.members || t.members == d.members["entry" := EntryOf(t)];
  }

  lemma {:induction false} ChangesKeepTop(d: Doc, changes: seq<Change>)
    requires ApplyAll(d, changes).Success?
    ensures SameTop(d, ApplyAll(d, changes).value)
    decreases changes
  {
    if changes != [] {
      ChangeKeepsTop(d, changes[0]);
      ChangesKeepTop(ApplyChange(d, changes[0]).value, changes[1..]);
    }
  }

  /** A change other than a rename leaves every other node alone. */
  lemma ChangeKeepsOtherNodes(d: Doc, c: Change, k: string)
    requires ApplyChange(d, c).Success? && !c.RenameNode? && (c.SetEntry? || k != c.id)
    ensures Agree(d.nodes, ApplyChange(d, c).value.nodes, k)
  {
  }

  /** Removing what was inserted at a place gives back the list of edges. */
  lemma InsertThenRemove(d: Doc, id: string, index: nat, value: Json)
    requires id in d.nodes && index <= |NextOf(d.nodes[id])| < U32
    ensures Insert(d, id, Some(Int(index)), value).Success?
    ensures Remove(Insert(d, id, Some(Int(index)), value).value, id, Some(Int(index))) ==
            Success(d.(nodes := d.nodes[id := d.nodes[id]["next" := Arr(NextOf(d.nodes[id]))]]))
  {
    var next := NextOf(d.nodes[id]);
    var longer := next[..index] + [value] + next[index..];
    assert longer[..index] + longer[index + 1..] == next;
    var t := Insert(d, id, Some(Int(index)), value).value;
    assert t.nodes[id] == d.nodes[id]["next" := Arr(longer)];
    var u := Remove(t, id, Some(Int(index))).value;
    assert u.nodes[id] == d.nodes[id]["next" := Arr(next)];
    assert u.nodes == d.nodes[id := d.nodes[id]["next" := Arr(next)]];
  }

  // ---------------------------------------------------------------- renaming

  function TargetOf(edge: Json): Option<string> {
    match edge
    case Str(s) => Some(s)
    case Obj(m) => AsString(if "to" in m then m["to"] else Str(""))
    case _ => None
  }

  ghost predicate Targets(n: Node, field: string, name: string) {
    field in n && if n[field].Arr? then exists i :: 0 <= i < |n[field].items| && TargetOf(n[field].items[i]) == Some(name)
                  else TargetOf(n[field]) == Some(name)
  }

  ghost predicate Joins(n: Node, name: string) {
    "join" in n && AsString(n["join"]) == Some(name)
  }

  ghost predicate Branches(n: Node, name: string) {
    "branches" in n && n["branches"].Arr?
    && exists i :: 0 <= i < |n["branches"].items| && AsString(n["branches"].items[i]) == Some(name)
  }

  /** The node names another one anywhere: next, on_error, join or branches. */
  ghost predicate Refers(n: Node, name: string) {
    Targets(n, "next", name) || Targets(n, "on_error", name) || Joins(n, name) || Branches(n, name)
  }

  lemma {:induction false} RenamedEach(items: seq<Json>, rename: Json -> Option<Json>, i: nat)
    requires RenameAll(items, rename).Some? && i < |items|
    ensures |RenameAll(items, rename).value| == |items|
    ensures rename(items[i]) == Some(RenameAll(items, rename).value[i])
  {
    if i > 0 {
      RenamedEach(items[1..], rename, i - 1);
    } else if |items| > 1 {
      RenamedEach(items[1..], rename, 0);
    }
  }

  lemma EdgeIsRenamed(edge: Json, from: string, to: string)
    requires from != to && from != "" && RenameEdge(edge, from, to).Some?
    ensures TargetOf(RenameEdge(edge, from, to).value) != Some(from)
    ensures RenameEdge(edge, from, to).value.Arr? <==> edge.Arr?
  {
  }

  lemma TargetsAreRenamed(n: Node, field: string, from: string, to: string)
    requires from != to && from != "" && RenameTargets(n, field, from, to).Some?
    ensures var m := RenameTargets(n, field, from, to).value;
            !Targets(m, field, from) && m - {field} == n - {field}
  {
    if field in n {
      if n[field].Arr? {
        var items, rename := n[field].items, (e: Json) => RenameEdge(e, from, to);
        var renamed := RenameAll(items, rename).value;
        RenamedLength(items, rename);
        forall i | 0 <= i < |items|
          ensures TargetOf(renamed[i]) != Some(from)
        {
          RenamedEach(items, rename, i);
          EdgeIsRenamed(items[i], from, to);
        }
      } else {
        EdgeIsRenamed(n[field], from, to);
      }
    }
  }

  lemma {:induction false} RenamedLength(items: seq<Json>, rename: Json -> Option<Json>)
    requires RenameAll(items, rename).Some?
    ensures |RenameAll(items, rename).value| == |items|
  {
    if items != [] {
      RenamedLength(items[1..], rename);
    }
  }

  lemma BranchesAreRenamed(n: Node, from: string, to: string)
    requires from != to && RenameBranches(n, from, to).Some?
    ensures var m := RenameBranches(n, from, to).value;
            !Branches(m, from) && m - {"branches"} == n - {"branches"}
  {
    if "branches" in n && n["branches"].Arr? {
      var items, rename := n["branches"].items, (b: Json) => RenameName(b, from, to);
      RenamedLength(items, rename);
      forall i | 0 <= i < |items|
        ensures AsString(RenameAll(items, rename).value[i]) != Some(from)
      {
        RenamedEach(items, rename, i);
      }
    }
  }

  lemma SameField(a: Node, b: Node, changed: string, field: string)
    requires a - {changed} == b - {changed} && field != changed
    ensures (field in a <==> field in b) && (field in a ==> a[field] == b[field])
  {
    assert field in a <==> field in a - {changed};
    assert field in b <==> field in b - {changed};
    assert field in a ==> a[field] == (a - {changed})[field] == (b - {changed})[field];
  }

  lemma FieldNames()
    ensures "next" != "on_error" && "next" != "join" && "next" != "branches"
    ensures "on_error" != "join" && "on_error" != "branches" && "join" != "branches"
  {
    assert |"next"| == 4 && |"on_error"| == 8 && |"join"| == 4 && |"branches"| == 8;
    assert "next"[0] != "join"[0] && "on_error"[0] != "branches"[0];
  }

  lemma NodeIsRenamed(n: Node, from: string, to: string)
    requires from != to && from != "" && RenameInNode(n, from, to).Some?
    ensures !Refers(RenameInNode(n, from, to).value, from)
  {
    FieldNames();
    TargetsAreRenamed(n, "next", from, to);
    var n1 := RenameTargets(n, "next", from, to).value;
    TargetsAreRenamed(n1, "on_error", from, to);
    var n2 := RenameTargets(n1, "on_error", from, to).value;
    var n3 := RenameJoin(n2, from, to).value;
    BranchesAreRenamed(n3, from, to);
    var n4 := RenameBranches(n3, from, to).value;
    SameField(n1, n2, "on_error", "next");
    assert n2 - {"join"} == n3 - {"join"};
    SameField(n2, n3, "join", "next");
    SameField(n2, n3, "join", "on_error");
    SameField(n3, n4, "branches", "next");
    SameField(n3, n4, "branches", "on_error");
    SameField(n3, n4, "branches", "join");
    assert !Joins(n3, from);
  }

  /** After a rename nothing in the workflow refers to the old id, and the node lives under the new one. */
  lemma RenameLeavesNoReference(d: Doc, id: string, to: string)
    requires id != "" && Rename(d, id, to).Success?
    ensures var t := Rename(d, id, to).value;
            && t.nodes.Keys == d.nodes.Keys - {id} + {to} && id !in t.nodes
            && AsString(EntryOf(t)) != Some(id)
            && forall n :: n in t.nodes ==> !Refers(t.nodes[n], id)
  {
    var moved := d.nodes[to := d.nodes[id]] - {id};
    forall n | n in moved
      ensures !Refers(RenameInNode(moved[n], id, to).value, id)
    {
      NodeIsRenamed(moved[n], id, to);
    }
  }

  /** A name that was `from` is `to`, any other is as it was. */
  ghost predicate NameMoved(a: Json, b: Json, from: string, to: string) {
    if AsString(a) == Some(from) then b == Str(to) else b == a
  }

  /** An edge to `from` leads to `to` and keeps its other members; any other edge is as it was. */
  ghost predicate EdgeMoved(a: Json, b: Json, from: string, to: string) {
    if TargetOf(a) != Some(from) then b == a
    else if a.Obj? then b == Obj(a.members["to" := Str(to)])
    else b == Str(to)
  }

  ghost predicate EdgesMoved(a: Json, b: Json, from: string, to: string) {
    if a.Arr? then b.Arr? && |a.items| == |b.items| && forall i :: 0 <= i < |a.items| ==> EdgeMoved(a.items[i], b.items[i], from, to)
    else EdgeMoved(a, b, from, to)
  }

  ghost predicate NamesMoved(a: Json, b: Json, from: string, to: string) {
    if a.Arr? then b.Arr? && |a.items| == |b.items| && forall i :: 0 <= i < |a.items| ==> NameMoved(a.items[i], b.items[i], from, to)
    else b == a
  }

  /** Both nodes have the member or neither, and `moved` relates the values. */
  ghost predicate FieldMoved(a: Node, b: Node, field: string, moved: (Json, Json) -> bool) {
    (field in a <==> field in b) && (field in a ==> moved(a[field], b[field]))
  }

  /** The node with every reference to `from` now naming `to`, and nothing else changed but a null for missing branches. */
  ghost predicate NodeMoved(a: Node, b: Node, from: string, to: string) {
    && FieldMoved(a, b, "next", (x, y) => EdgesMoved(x, y, from, to))
    && FieldMoved(a, b, "on_error", (x, y) => EdgesMoved(x, y, from, to))
    && FieldMoved(a, b, "join", (x, y) => NameMoved(x, y, from, to))
    && "branches" in b && NamesMoved(if "branches" in a then a["branches"] else Null, b["branches"], from, to)
    && a - {"next", "on_error", "join", "branches"} == b - {"next", "on_error", "join", "branches"}
  }

  lemma TargetsMove(n: Node, field: string, from: string, to: string)
    requires RenameTargets(n, field, from, to).Some?
    ensures var m := RenameTargets(n, field, from, to).value;
            FieldMoved(n, m, field, (x, y) => EdgesMoved(x, y, from, to)) && m - {field} == n - {field}
  {
    if field in n && n[field].Arr? {
      var items, rename := n[field].items, (e: Json) => RenameEdge(e, from, to);
      RenamedLength(items, rename);
      forall i | 0 <= i < |items|
        ensures EdgeMoved(items[i], RenameAll(items, rename).value[i], from, to)
      {
        RenamedEach(items, rename, i);
      }
    }
  }

  lemma BranchesMove(n: Node, from: string, to: string)
    requires RenameBranches(n, from, to).Some?
    ensures var m := RenameBranches(n, from, to).value;
            && "branches" in m && NamesMoved(if "branches" in n then n["branches"] else Null, m["branches"], from, to)
            && m - {"branches"} == n - {"branches"}
  {
    if "branches" in n && n["branches"].Arr? {
      var items, rename := n["branches"].items, (b: Json) => RenameName(b, from, to);
      RenamedLength(items, rename);
      forall i | 0 <= i < |items|
        ensures NameMoved(items[i], RenameAll(items, rename).value[i], from, to)
      {
        RenamedEach(items, rename, i);
      }
    }
  }

  lemma JoinMoves(n: Node, from: string, to: string)
    requires RenameJoin(n, from, to).Some?
    ensures var m := RenameJoin(n, from, to).value;
            FieldMoved(n, m, "join", (x, y) => NameMoved(x, y, from, to)) && m - {"join"} == n - {"join"}
  {
  }

  lemma SameRest(a: Node, b: Node, field: string, fields: set<string>)
    requires a - {field} == b - {field} && field in fields
    ensures a - fields == b - fields
  {
    assert (a - {field}) - fields == a - fields && (b - {field}) - fields == b - fields;
  }

  lemma NodeMoves(n: Node, from: string, to: string)
    requires RenameInNode(n, from, to).Some?
    ensures NodeMoved(n, RenameInNode(n, from, to).value, from, to)
  {
    var all := {"next", "on_error", "join", "branches"};
    FieldNames();
    TargetsMove(n, "next", from, to);
    var n1 := RenameTargets(n, "next", from, to).value;
    TargetsMove(n1, "on_error", from, to);
    var n2 := RenameTargets(n1, "on_error", from, to).value;
    JoinMoves(n2, from, to);
    var n3 := RenameJoin(n2, from, to).value;
    BranchesMove(n3, from, to);
    var n4 := RenameBranches(n3, from, to).value;
    NextStays(n1, n2, n3, n4);
    ErrorStays(n, n1, n2, n3, n4);
    SameField(n, n1, "next", "join");
    SameField(n1, n2, "on_error", "join");
    SameField(n3, n4, "branches", "join");
    SameField(n, n1, "next", "branches");
    SameField(n1, n2, "on_error", "branches");
    SameField(n2, n3, "join", "branches");
    SameRest(n, n1, "next", all);
    SameRest(n1, n2, "on_error", all);
    SameRest(n2, n3, "join", all);
    SameRest(n3, n4, "branches", all);
  }

  lemma NextStays(n1: Node, n2: Node, n3: Node, n4: Node)
    requires n2 - {"on_error"} == n1 - {"on_error"} && n3 - {"join"} == n2 - {"join"} && n4 - {"branches"} == n3 - {"branches"}
    ensures ("next" in n1 <==> "next" in n4) && ("next" in n1 ==> n1["next"] == n4["next"])
  {
    FieldNames();
    SameField(n1, n2, "on_error", "next");
    SameField(n2, n3, "join", "next");
    SameField(n3, n4, "branches", "next");
  }

  lemma ErrorStays(n: Node, n1: Node, n2: Node, n3: Node, n4: Node)
    requires n1 - {"next"} == n - {"next"} && n3 - {"join"} == n2 - {"join"} && n4 - {"branches"} == n3 - {"branches"}
    ensures ("on_error" in n <==> "on_error" in n1) && ("on_error" in n ==> n["on_error"] == n1["on_error"])
    ensures ("on_error" in n2 <==> "on_error" in n4) && ("on_error" in n2 ==> n2["on_error"] == n4["on_error"])
  {
    FieldNames();
    SameField(n, n1, "next", "on_error");
    SameField(n2, n3, "join", "on_error");
    SameField(n3, n4, "branches", "on_error");
  }

  /** A rename moves every reference: the entry, and next, on_error, join and branches of every node. */
  lemma RenameMovesReferences(d: Doc, id: string, to: string)
    requires Rename(d, id, to).Success?
    ensures var t := Rename(d, id, to).value;
            && (forall n :: n in d.nodes ==>
                  (if n == id then to else n) in t.nodes && NodeMoved(d.nodes[n], t.nodes[if n == id then to else n], id, to))
            && NameMoved(EntryOf(d), EntryOf(t), id, to)
            && t.members - {"entry"} == d.members - {"entry"}
  {
    var moved := d.nodes[to := d.nodes[id]] - {id};
    var t := Rename(d, id, to).value;
    forall n | n in d.nodes
      ensures (if n == id then to else n) in t.nodes
      ensures NodeMoved(d.nodes[n], t.nodes[if n == id then to else n], id, to)
    {
      var m := if n == id then to else n;
      assert m in moved && moved[m] == d.nodes[n] && RenameInNode(moved[m], id, to).Some?;
      NodeMoves(d.nodes[n], id, to);
    }
  }

  /** What every change on one node writes, and its error without that node. */
  lemma ChangesWrite(d: Doc, id: string, field: string, value: Json)
    requires id != ""
    ensures id !in d.nodes ==>
              && ApplyChange(d, SetNext(id, value)) == Failure(NodeNotFound)
              && ApplyChange(d, SetOnError(id, value)) == Failure(NodeNotFound)
              && ApplyChange(d, EnableNode(id)) == Failure(NodeNotFound)
              && ApplyChange(d, DisableNode(id)) == Failure(NodeNotFound)
              && ApplyChange(d, RemoveNode(id)) == Failure(NodeNotFound)
              && ApplyChange(d, AddNode(id, Obj(map[field := value]))) == Success(d.(nodes := d.nodes[id := map[field := value]]))
    ensures id in d.nodes ==>
              var n := d.nodes[id];
              && ApplyChange(d, SetNext(id, value)) == Success(d.(nodes := d.nodes[id := n["next" := value]]))
              && ApplyChange(d, SetOnError(id, value)) == Success(d.(nodes := d.nodes[id := n["on_error" := value]]))
              && ApplyChange(d, EnableNode(id)) == Success(d.(nodes := d.nodes[id := n["enabled" := Bool(true)]]))
              && ApplyChange(d, DisableNode(id)) == Success(d.(nodes := d.nodes[id := n["enabled" := Bool(false)]]))
              && ApplyChange(d, RemoveNode(id)) == Success(d.(nodes := d.nodes - {id}))
              && ApplyChange(d, AddNode(id, Obj(n))) == Failure(NodeAlreadyExists)
              && (field != "" ==>
                    ApplyChange(d, SetField(id, field, value)) == Success(d.(nodes := d.nodes[id := n[field := value]])))
              && (field != "" && field in n ==>
                    ApplyChange(d, RemoveField(id, field)) == Success(d.(nodes := d.nodes[id := n - {field}])))
              && (field != "" && field !in n ==> ApplyChange(d, RemoveField(id, field)) == Failure(FieldNotFound))
  {
  }

  // ---------------------------------------------------------------- answers of the remaining changes

  lemma {:induction false} RenameAllExactly(items: seq<Json>, rename: Json -> Option<Json>)
    ensures RenameAll(items, rename).Some? <==> forall i :: 0 <= i < |items| ==> rename(items[i]).Some?
  {
    if items != [] {
      RenameAllExactly(items[1..], rename);
      assert (forall i :: 0 <= i < |items| ==> rename(items[i]).Some?) <==>
             rename(items[0]).Some? && forall i :: 0 <= i < |items[1..]| ==> rename(items[1..][i]).Some? by {
        if rename(items[0]).Some? && forall i :: 0 <= i < |items[1..]| ==> rename(items[1..][i]).Some? {
          forall i | 0 <= i < |items|
            ensures rename(items[i]).Some?
          {
            if i > 0 {
              assert items[i] == items[1..][i - 1];
            }
          }
        }
      }
    }
  }

  predicate IsScalar(j: Json) {
    !j.Arr? && !j.Obj?
  }

  predicate EdgeReads(edge: Json) {
    edge.Obj? && "to" in edge.members ==> IsScalar(edge.members["to"])
  }

  ghost predicate EdgesRead(n: Node, field: string) {
    field in n ==>
      if n[field].Arr? then forall i :: 0 <= i < |n[field].items| ==> EdgeReads(n[field].items[i]) else EdgeReads(n[field])
  }

  /** Every reference of the node is a scalar, so that its text can be compared. */
  ghost predicate ReferencesRead(n: Node) {
    && EdgesRead(n, "next") && EdgesRead(n, "on_error") && ("join" in n ==> IsScalar(n["join"]))
    && ("branches" in n && n["branches"].Arr? ==> forall i :: 0 <= i < |n["branches"].items| ==> IsScalar(n["branches"].items[i]))
  }

  lemma TargetsRead(n: Node, field: string, from: string, to: string)
    ensures RenameTargets(n, field, from, to).Some? <==> EdgesRead(n, field)
  {
    if field in n && n[field].Arr? {
      var items := n[field].items;
      RenameAllExactly(items, e => RenameEdge(e, from, to));
      assert forall i :: 0 <= i < |items| ==> (RenameEdge(items[i], from, to).Some? <==> EdgeReads(items[i]));
    }
  }

  lemma BranchesRead(n: Node, from: string, to: string)
    ensures RenameBranches(n, from, to).Some? <==>
            ("branches" in n && n["branches"].Arr? ==> forall i :: 0 <= i < |n["branches"].items| ==> IsScalar(n["branches"].items[i]))
  {
    if "branches" in n && n["branches"].Arr? {
      var items := n["branches"].items;
      RenameAllExactly(items, b => RenameName(b, from, to));
      assert forall i :: 0 <= i < |items| ==> (RenameName(items[i], from, to).Some? <==> IsScalar(items[i]));
    }
  }

  lemma SameEdges(a: Node, b: Node, field: string)
    requires (field in a <==> field in b) && (field in a ==> a[field] == b[field])
    ensures EdgesRead(a, field) <==> EdgesRead(b, field)
  {
  }

  lemma NodeReads(n: Node, from: string, to: string)
    ensures RenameInNode(n, from, to).Some? <==> ReferencesRead(n)
  {
    FieldNames();
    TargetsRead(n, "next", from, to);
    if EdgesRead(n, "next") {
      TargetsMove(n, "next", from, to);
      var n1 := RenameTargets(n, "next", from, to).value;
      SameField(n, n1, "next", "on_error");
      SameEdges(n, n1, "on_error");
      SameField(n, n1, "next", "join");
      SameField(n, n1, "next", "branches");
      TargetsRead(n1, "on_error", from, to);
      if EdgesRead(n, "on_error") {
        RestReads(n1, from, to);
      }
    }
  }

  lemma RestReads(n1: Node, from: string, to: string)
    requires RenameTargets(n1, "on_error", from, to).Some?
    ensures var n2 := RenameTargets(n1, "on_error", from, to).value;
            RenameJoin(n2, from, to).Some? && RenameBranches(RenameJoin(n2, from, to).value, from, to).Some? <==>
            && ("join" in n1 ==> IsScalar(n1["join"]))
            && ("branches" in n1 && n1["branches"].Arr? ==>
                  forall i :: 0 <= i < |n1["branches"].items| ==> IsScalar(n1["branches"].items[i]))
  {
    FieldNames();
    TargetsMove(n1, "on_error", from, to);
    var n2 := RenameTargets(n1, "on_error", from, to).value;
    SameField(n1, n2, "on_error", "join");
    SameField(n1, n2, "on_error", "branches");
    if RenameJoin(n2, from, to).Some? {
      JoinMoves(n2, from, to);
      var n3 := RenameJoin(n2, from, to).value;
      SameField(n2, n3, "join", "branches");
      BranchesRead(n3, from, to);
    }
  }

  /** What a rename answers: the new id must be given and free, the old one known, and every reference a scalar. */
  lemma RenameAnswers(d: Doc, id: string, to: string)
    ensures to == "" ==> Rename(d, id, to) == Failure(NewNodeIdRequired)
    ensures to != "" && id !in d.nodes ==> Rename(d, id, to) == Failure(NodeNotFound)
    ensures to != "" && id in d.nodes && to in d.nodes ==> Rename(d, id, to) == Failure(NodeAlreadyExists)
    ensures to != "" && id in d.nodes && to !in d.nodes ==>
              if IsScalar(EntryOf(d)) && forall n :: n in d.nodes ==> ReferencesRead(d.nodes[n])
              then Rename(d, id, to).Success? else Rename(d, id, to) == Failure(InvalidFieldType)
  {
    if to != "" && id in d.nodes && to !in d.nodes {
      var moved := d.nodes[to := d.nodes[id]] - {id};
      forall n | n in moved
        ensures RenameInNode(moved[n], id, to).Some? <==> ReferencesRead(moved[n])
      {
        NodeReads(moved[n], id, to);
      }
      assert forall n :: n in d.nodes ==> (if n == id then to else n) in moved && moved[if n == id then to else n] == d.nodes[n];
      assert forall n :: n in moved ==> (if n == to then id else n) in d.nodes && d.nodes[if n == to then id else n] == moved[n];
    }
  }

  /** The edges of a node as a list: a single edge counts as a list of one, a missing or null one as none. */
  function EdgeList(n: Node): seq<Json> {
    if "next" !in n || n["next"] == Null then [] else match n["next"] case Arr(items) => items case edge => [edge]
  }

  /** What insert_next answers: the edge goes before the given index, or at the end. */
  lemma InsertAnswers(d: Doc, id: string, index: Option<Json>, value: Json)
    requires id != "" && id in d.nodes
    ensures var answer := ApplyChange(d, InsertNext(id, index, value));
            var list := EdgeList(d.nodes[id]);
            var at := (p: nat) requires p <= |list| =>
              Success(d.(nodes := d.nodes[id := d.nodes[id]["next" := Arr(list[..p] + [value] + list[p..])]]));
            match index
            case None => answer == at(|list|)
            case Some(Int(n)) =>
              && (n < 0 || n >= 0x1_0000_0000_0000_0000 ==> answer == Failure(IndexInvalid))
              && (0x1_0000_0000 <= n < 0x1_0000_0000_0000_0000 ==> answer == Failure(InvalidFieldType))
              && (0 <= n < 0x1_0000_0000 ==> answer == at(if n < |list| then n else |list|))
            case Some(_) => answer == Failure(IndexInvalid)
  {
  }

  /** What remove_next answers: the edge at the index goes, and only a list has indices. */
  lemma RemoveAnswers(d: Doc, id: string, index: Option<Json>)
    requires id != "" && id in d.nodes
    ensures var answer := ApplyChange(d, RemoveNext(id, index));
            var list := if "next" in d.nodes[id] && d.nodes[id]["next"].Arr? then d.nodes[id]["next"].items else [];
            match index
            case None => answer == Failure(IndexInvalid)
            case Some(Int(n)) =>
              && (n < 0 || n >= 0x1_0000_0000_0000_0000 ==> answer == Failure(IndexInvalid))
              && (0x1_0000_0000 <= n < 0x1_0000_0000_0000_0000 ==> answer == Failure(InvalidFieldType))
              && (|list| <= n < 0x1_0000_0000 && n >= 0 ==> answer == Failure(IndexOutOfRange))
              && (0 <= n < |list| && n < 0x1_0000_0000 ==>
                    answer == Success(d.(nodes := d.nodes[id := d.nodes[id]["next" := Arr(list[..n] + list[n + 1..])]])))
            case Some(_) => answer == Failure(IndexInvalid)
  {
  }

  /** What the changes of whole nodes and of the entry answer, and that every change but set_entry needs an id. */
  lemma WholeNodesAnswer(d: Doc, id: string, node: Json, value: Json)
    ensures ApplyChange(d, RemoveNode("")) == Failure(NodeIdRequired) && ApplyChange(d, AddNode("", node)) == Failure(NodeIdRequired)
    ensures id != "" && !node.Obj? ==>
              ApplyChange(d, AddNode(id, node)) == Failure(NodeNotObject) && ApplyChange(d, ReplaceNode(id, node)) == Failure(NodeNotObject)
    ensures id != "" && node.Obj? && id !in d.nodes ==> ApplyChange(d, ReplaceNode(id, node)) == Failure(NodeNotFound)
    ensures id != "" && node.Obj? && id in d.nodes ==>
              ApplyChange(d, ReplaceNode(id, node)) == Success(d.(nodes := d.nodes[id := node.members]))
    ensures id != "" ==> ApplyChange(d, SetField(id, "", value)) == Failure(FieldRequired) == ApplyChange(d, RemoveField(id, ""))
    ensures ApplyChange(d, SetEntry(value)) ==
            if value.Str? && value.text in d.nodes then Success(d.(members := d.members["entry" := value])) else Failure(EntryNotFound)
  {
  }

  // ---------------------------------------------------------------- what a patch is checked for

  /** The effects a node without declared ones gets, by its type. */
  lemma EffectsByType(id: string, n: Node, defaults: map<string, Json>)
    requires "effects" !in n && "type" in n && n["type"].Str?
    ensures var m, t := NormalizeNode(id, n, defaults), n["type"].text;
            && (t == "llm" ==> "effects" in m && m["effects"] == Obj(map["kind" := Str("external_read"), "replay" := Str("safe")]))
            && (t == "transform" || t == "condition" || t == "noop" ==>
                  "effects" in m && m["effects"] == Obj(map["kind" := Str("pure"), "replay" := Str("safe")]))
            && (t != "llm" && t != "transform" && t != "condition" && t != "noop" ==> "effects" !in m)
  {
    NormalizeNodeFills(id, n, defaults);
    assert |"llm"| == 3 && |"noop"| == 4 && |"transform"| == 9 && |"condition"| == 9;
  }

  /** The revision a document declares: missing and null count as 0; what is no 64-bit number is an error. */
  lemma RevisionMeans(members: map<string, Json>)
    ensures "x_revision" !in members ==> RevisionOf(members) == Some(0)
    ensures "x_revision" in members ==>
              && (members["x_revision"].Null? ==> RevisionOf(members) == Some(0))
              && (members["x_revision"] == Bool(false) ==> RevisionOf(members) == Some(0))
              && (members["x_revision"] == Bool(true) ==> RevisionOf(members) == Some(1))
              && (members["x_revision"].Int? ==>
                    var n := members["x_revision"].number;
                    RevisionOf(members) == if 0 <= n < 0x1_0000_0000_0000_0000 then Some(n) else None)
              && (members["x_revision"].Str? || members["x_revision"].Arr? || members["x_revision"].Obj? ==>
                    RevisionOf(members).None?)
  {
  }

  /** The order of the checks on a patch: digest, revision, changes; the first that fails is the answer. */
  lemma PatchIsChecked(e: Engine, w: Doc, p: Patch)
    ensures var answer := ApplyPatch(e, w, p);
            var digest := e.digest(w.(members := w.members - {"x_revision"}));
            var revision, given := RevisionOf(w.members), p.baseRevision;
            var number := given.Some? && given.value.Int? && 0 <= given.value.number < 0x1_0000_0000_0000_0000;
            && (p.baseDigest == "" ==> answer == Failure(BaseDigestRequired))
            && (p.baseDigest != "" && p.baseDigest != digest ==> answer == Failure(BaseDigestMismatch))
            && (p.baseDigest == digest != "" && revision.None? ==> answer == Failure(InvalidFieldType))
            && (p.baseDigest == digest != "" && revision.Some? ==>
                  && (given.Some? && !number ==> answer == Failure(InvalidBaseRevision))
                  && (number && given.value.number != revision.value ==> answer == Failure(BaseRevisionMismatch))
                  && ((given.None? || given == Some(Int(revision.value))) && p.changes == [] ==> answer == Failure(InvalidChanges)))
  {
  }

  lemma ChangesKeepRevision(w: Doc, changes: seq<Change>)
    requires ApplyAll(w, changes).Success?
    ensures RevisionOf(ApplyAll(w, changes).value.members) == RevisionOf(w.members)
  {
    ChangesKeepTop(w, changes);
    assert |"x_revision"| == 10 && |"entry"| == 5;
    SameField(w.members, ApplyAll(w, changes).value.members, "entry", "x_revision");
  }

  /** A patch that is applied raises the revision of the workflow by one, on 64 bits. */
  lemma RevisionRises(e: Engine, w: Doc, p: Patch)
    requires ApplyPatch(e, w, p).Success?
    ensures RevisionOf(w.members).Some? && "x_revision" in ApplyPatch(e, w, p).value.members
    ensures var n := RevisionOf(w.members).value;
            ApplyPatch(e, w, p).value.members["x_revision"] == Int(if n + 1 == 0x1_0000_0000_0000_0000 then 0 else n + 1)
  {
    ChangesKeepRevision(w, p.changes);
    LoadKeepsRevision(e, Bump(ApplyAll(w, p.changes).value).value);
  }

  lemma LoadKeepsRevision(e: Engine, d: Doc)
    requires Load(e, d).Success? && "x_revision" in d.members
    ensures "x_revision" in Load(e, d).value.members && Load(e, d).value.members["x_revision"] == d.members["x_revision"]
  {
    assert |"x_revision"| == 10 && |"defaults"| == 8;
  }

  // ---------------------------------------------------------------- undoing the nodes

  /** The nodes with the listed ones as they were before. */
  function Reverted(before: map<string, Node>, nodes: map<string, Node>, names: seq<string>): map<string, Node> {
    map id | id in nodes.Keys + before.Keys && (if id in names then id in before else id in nodes) ::
      if id in names then before[id] else nodes[id]
  }

  ghost predicate Agree(a: map<string, Node>, b: map<string, Node>, id: string) {
    (id in a <==> id in b) && (id in a ==> a[id] == b[id])
  }

  lemma UndoNodeApplies(before: map<string, Node>, after: map<string, Node>, id: string, d: Doc)
    requires id != "" && (id in before || id in after) && Agree(d.nodes, after, id)
    ensures ApplyAll(d, UndoNode(before, after, id)) == Success(d.(nodes := Reverted(before, d.nodes, [id])))
  {
    var changes := UndoNode(before, after, id);
    if changes == [] {
      assert Reverted(before, d.nodes, [id]) == d.nodes;
    } else {
      assert changes[1..] == [];
      var t := ApplyChange(d, changes[0]).value;
      assert t.nodes == Reverted(before, d.nodes, [id]);
    }
  }

  lemma {:induction false} ApplyConcat(d: Doc, a: seq<Change>, b: seq<Change>)
    requires ApplyAll(d, a).Success?
    ensures ApplyAll(d, a + b) == ApplyAll(ApplyAll(d, a).value, b)
    decreases a
  {
    if a == [] {
      assert a + b == b;
    } else {
      assert (a + b)[0] == a[0] && (a + b)[1..] == a[1..] + b;
      ApplyConcat(ApplyChange(d, a[0]).value, a[1..], b);
    }
  }

  lemma RevertedInSteps(before: map<string, Node>, nodes: map<string, Node>, names: seq<string>)
    requires names != []
    ensures Reverted(before, Reverted(before, nodes, [names[0]]), names[1..]) == Reverted(before, nodes, names)
  {
    assert forall k :: k in names <==> k == names[0] || k in names[1..];
  }

  lemma {:induction false} UndoNodesApplies(before: map<string, Node>, after: map<string, Node>, names: seq<string>, d: Doc)
    requires forall i, j :: 0 <= i < j < |names| ==> names[i] != names[j]
    requires forall id :: id in names ==> id != "" && (id in before || id in after) && Agree(d.nodes, after, id)
    ensures ApplyAll(d, UndoNodes(before, after, names)) == Success(d.(nodes := Reverted(before, d.nodes, names)))
    decreases names
  {
    if names == [] {
      assert Reverted(before, d.nodes, names) == d.nodes;
    } else {
      var id, rest := names[0], names[1..];
      assert id in names;
      UndoNodeApplies(before, after, id, d);
      var t := d.(nodes := Reverted(before, d.nodes, [id]));
      forall k | k in rest
        ensures Agree(t.nodes, after, k) && k != "" && (k in before || k in after)
      {
        assert k != id && k in names && Agree(d.nodes, after, k);
      }
      UndoNodesApplies(before, after, rest, t);
      ApplyConcat(d, UndoNode(before, after, id), UndoNodes(before, after, rest));
      RevertedInSteps(before, d.nodes, names);
    }
  }

  // ---------------------------------------------------------------- the inverse restores the base

  /** The base entry can be set while the candidate's nodes are still in place. */
  predicate EntryCanBeSet(before: Doc, after: Doc) {
    EntryOf(before) == EntryOf(after) || (EntryOf(before).Str? && EntryOf(before).text in after.nodes)
  }

  function Undone(before: Doc, after: Doc): Doc {
    Doc(after.members["entry" := EntryOf(before)], before.nodes)
  }

  lemma UndoApplies(before: Doc, after: Doc)
    requires "entry" in after.members && "" !in before.nodes && "" !in after.nodes
    ensures ApplyAll(after, UndoChanges(before, after)) ==
            if EntryCanBeSet(before, after) then Success(Undone(before, after)) else Failure(EntryNotFound)
  {
    var names := SortedKeys(before.nodes.Keys + after.nodes.Keys);
    AscendingIsDistinct(names);
    var tail := UndoNodes(before.nodes, after.nodes, names);
    var changes := UndoChanges(before, after);
    if EntryOf(before) == EntryOf(after) {
      assert changes == tail;
      assert after.members["entry" := EntryOf(before)] == after.members;
      UndoAllNodes(before, after, names, after);
    } else {
      assert changes[0] == SetEntry(EntryOf(before)) && changes[1..] == tail;
      if EntryCanBeSet(before, after) {
        UndoAllNodes(before, after, names, after.(members := after.members["entry" := EntryOf(before)]));
      }
    }
  }

  lemma UndoAllNodes(before: Doc, after: Doc, names: seq<string>, d: Doc)
    requires forall i, j :: 0 <= i < j < |names| ==> names[i] != names[j]
    requires forall id :: id in names <==> id in before.nodes || id in after.nodes
    requires d.nodes == after.nodes && "" !in before.nodes && "" !in after.nodes
    ensures ApplyAll(d, UndoNodes(before.nodes, after.nodes, names)) == Success(d.(nodes := before.nodes))
  {
    UndoNodesApplies(before.nodes, after.nodes, names, d);
    assert Reverted(before.nodes, d.nodes, names) == before.nodes;
  }

  /** What validation guarantees about every document it accepts, and hashing about every digest. */
  ghost predicate Checks(e: Engine) {
    && (forall d :: e.valid(d) ==> "entry" in d.members && "" !in d.nodes)
    && (forall d :: e.digest(d) != "")
  }

  /** A candidate differs from its base at the top level by entry, revision and perhaps null defaults. */
  ghost predicate TopOf(base: Doc, cand: Doc) {
    && cand.members - {"entry", "x_revision", "defaults"} == base.members - {"entry", "x_revision", "defaults"}
    && ("defaults" in base.members ==> "defaults" in cand.members && cand.members["defaults"] == base.members["defaults"])
    && ("defaults" !in base.members && "defaults" in cand.members ==> cand.members["defaults"] == Null)
    && "entry" in cand.members && RevisionOf(cand.members).Some?
  }

  lemma NormalizeKeepsTop(d: Doc, t: Doc)
    requires Normalize(d) == Success(t)
    ensures t.members == d.members || ("defaults" !in d.members && t.members == d.members["defaults" := Null])
    ensures t.nodes.Keys == d.nodes.Keys
    ensures "defaults" in t.members <==> "defaults" in d.members || NeedsDefaults(d.nodes)
  {
  }

  lemma BumpKeepsTop(d: Doc, t: Doc)
    requires Bump(d) == Success(t)
    ensures t.members - {"x_revision"} == d.members - {"x_revision"} && RevisionOf(t.members).Some? && t.nodes == d.nodes
    ensures forall k :: k in d.members ==> k in t.members
  {
  }

  lemma CandidateTop(base: Doc, patched: Doc, bumped: Doc, cand: Doc)
    requires SameTop(base, patched) && Bump(patched) == Success(bumped) && Normalize(bumped) == Success(cand)
    requires "entry" in base.members
    ensures TopOf(base, cand)
    ensures "defaults" in cand.members <==> "defaults" in base.members || NeedsDefaults(patched.nodes)
  {
    BumpKeepsTop(patched, bumped);
    NormalizeKeepsTop(bumped, cand);
    assert |"defaults"| != |"x_revision"| && |"defaults"| != |"entry"| && |"entry"| != |"x_revision"|;
    SameElsewhere(base.members, patched.members, bumped.members, cand.members);
  }

  lemma SameElsewhere(a: map<string, Json>, b: map<string, Json>, c: map<string, Json>, d: map<string, Json>)
    requires a - {"entry"} == b - {"entry"} && b - {"x_revision"} == c - {"x_revision"}
    requires d == c || d == c["defaults" := Null]
    ensures a - {"entry", "x_revision", "defaults"} == d - {"entry", "x_revision", "defaults"}
    ensures "defaults" != "entry" && "defaults" != "x_revision" ==>
              (("defaults" in a <==> "defaults" in c) && ("defaults" in a ==> a["defaults"] == c["defaults"]))
  {
    var keys := {"entry", "x_revision", "defaults"};
    forall k
      ensures k in a - keys <==> k in d - keys
      ensures k in a - keys ==> a[k] == d[k]
    {
      assert k !in keys ==> (k in a <==> k in a - {"entry"}) && (k in b <==> k in b - {"entry"});
      assert k !in keys ==> (k in b <==> k in b - {"x_revision"}) && (k in c <==> k in c - {"x_revision"});
      assert k in a - keys ==> a[k] == (a - {"entry"})[k] == (b - {"entry"})[k] == b[k];
      assert k in a - keys ==> b[k] == (b - {"x_revision"})[k] == (c - {"x_revision"})[k] == c[k];
    }
    var k := "defaults";
    assert k != "entry" && k != "x_revision" ==> (k in a <==> k in a - {"entry"}) && (k in b <==> k in b - {"entry"});
    assert k != "entry" && k != "x_revision" ==> (k in b <==> k in b - {"x_revision"}) && (k in c <==> k in c - {"x_revision"});
    assert k != "entry" && k != "x_revision" && k in a ==> a[k] == (a - {"entry"})[k] == (b - {"entry"})[k] == b[k];
    assert k != "entry" && k != "x_revision" && k in a ==> b[k] == (b - {"x_revision"})[k] == (c - {"x_revision"})[k] == c[k];
  }

  /** What undoing the candidate amounts to: the base with a new revision and the candidate's defaults. */
  function Restored(base: Doc, cand: Doc): Doc
    requires RevisionOf(cand.members).Some?
  {
    Doc(Undone(base, cand).members["x_revision" := NextRevision(RevisionOf(cand.members).value)], base.nodes)
  }

  lemma RestoredTop(base: Doc, cand: Doc)
    requires TopOf(base, cand) && "entry" in base.members
    ensures var r := Restored(base, cand).members;
            && RevisionOf(Undone(base, cand).members) == RevisionOf(cand.members)
            && r - {"x_revision", "defaults"} == base.members - {"x_revision", "defaults"}
            && ("defaults" in r <==> "defaults" in cand.members)
            && ("defaults" in r ==> r["defaults"] == cand.members["defaults"])
  {
    var r := Restored(base, cand).members;
    assert |"defaults"| != |"x_revision"| && |"defaults"| != |"entry"| && |"entry"| != |"x_revision"|;
    var keys := {"entry", "x_revision", "defaults"};
    forall k
      ensures k in r - {"x_revision", "defaults"} <==> k in base.members - {"x_revision", "defaults"}
      ensures k in r - {"x_revision", "defaults"} ==> r[k] == base.members[k]
    {
      assert k !in keys ==> (k in r <==> k in cand.members - keys) && (k in base.members <==> k in base.members - keys);
      assert k !in keys && k in r ==> r[k] == (cand.members - keys)[k] == (base.members - keys)[k];
    }
  }

  /** The base's nodes are normal under the candidate's defaults too. */
  lemma RestoredIsNormal(base: Doc, cand: Doc)
    requires Normalize(base) == Success(base) && TopOf(base, cand) && "entry" in base.members
    ensures Normalize(Restored(base, cand)) == Success(Restored(base, cand))
  {
    RestoredTop(base, cand);
    NormalizeKeepsTop(base, base);
    var r := Restored(base, cand);
    assert DefaultsOf(r.members) == DefaultsOf(base.members);
    forall id | id in base.nodes
      ensures NormalizeNode(id, base.nodes[id], DefaultsOf(base.members)) == base.nodes[id]
    {
      assert Normalize(base).value.nodes[id] == base.nodes[id];
    }
    assert Normalize(r).value.nodes == r.nodes;
  }

  lemma LoadedFacts(e: Engine, source: Doc, base: Doc)
    requires Checks(e) && Load(e, source) == Success(base)
    ensures Normalize(base) == Success(base) && "entry" in base.members && "" !in base.nodes
  {
    NormalizeTwice(source);
    NormalizeKeepsTop(source, base);
  }

  lemma CandidateFacts(e: Engine, base: Doc, p: Patch, cand: Doc)
    requires Checks(e) && "entry" in base.members && ApplyPatch(e, base, p) == Success(cand)
    ensures TopOf(base, cand) && "" !in cand.nodes && ApplyAll(base, p.changes).Success?
    ensures "defaults" in cand.members <==> "defaults" in base.members || NeedsDefaults(ApplyAll(base, p.changes).value.nodes)
  {
    var patched := ApplyAll(base, p.changes).value;
    var bumped := Bump(patched).value;
    ChangesKeepTop(base, p.changes);
    CandidateTop(base, patched, bumped, cand);
    NormalizeKeepsTop(bumped, cand);
  }

  /** The inverse patch always meets the base checks, unless nothing changed. */
  lemma InverseTargetsCandidate(e: Engine, base: Doc, cand: Doc)
    requires Checks(e) && RevisionOf(cand.members).Some?
    ensures CheckBase(e, cand, Inverse(e, base, cand)) ==
            if UndoChanges(base, cand) == [] then Some(InvalidChanges) else None
  {
    assert RevisionOf(cand.members).value < U64;
  }

  /** There is something to undo exactly when the entry or a node differs. */
  lemma {:induction false} NothingToUndo(before: map<string, Node>, after: map<string, Node>, names: seq<string>)
    requires forall id :: id in names ==> id in before || id in after
    ensures UndoNodes(before, after, names) == [] <==> forall id :: id in names ==> Agree(before, after, id)
  {
    if names != [] {
      NothingToUndo(before, after, names[1..]);
      assert names[0] in names;
      assert UndoNode(before, after, names[0]) == [] <==> Agree(before, after, names[0]);
      assert |UndoNodes(before, after, names)| == |UndoNode(before, after, names[0])| + |UndoNodes(before, after, names[1..])|;
      assert forall id :: id in names <==> id == names[0] || id in names[1..];
    }
  }

  lemma NothingChanged(before: Doc, after: Doc)
    ensures UndoChanges(before, after) == [] <==> EntryOf(before) == EntryOf(after) && before.nodes == after.nodes
  {
    var names := SortedKeys(before.nodes.Keys + after.nodes.Keys);
    NothingToUndo(before.nodes, after.nodes, names);
    if forall id :: id in names ==> Agree(before.nodes, after.nodes, id) {
      assert before.nodes.Keys == after.nodes.Keys;
      assert before.nodes == after.nodes;
    }
  }

  /**
   The inverse patch, exactly: applied to the candidate it is refused when nothing
   changed or when the base entry is no node of the candidate; otherwise it loads the
   restored document, which is already normal.
   */
  lemma InversePatch(e: Engine, source: Doc, base: Doc, p: Patch, cand: Doc)
    requires Checks(e) && Load(e, source) == Success(base) && ApplyPatch(e, base, p) == Success(cand)
    ensures RevisionOf(cand.members).Some?
    ensures ApplyPatch(e, cand, Inverse(e, base, cand)) ==
            if EntryOf(base) == EntryOf(cand) && base.nodes == cand.nodes then Failure(InvalidChanges)
            else if !EntryCanBeSet(base, cand) then Failure(EntryNotFound)
            else if e.valid(Restored(base, cand)) && e.compiles(Restored(base, cand)) then Success(Restored(base, cand))
            else Failure(InvalidWorkflow)
  {
    LoadedFacts(e, source, base);
    CandidateFacts(e, base, p, cand);
    InverseTargetsCandidate(e, base, cand);
    NothingChanged(base, cand);
    UndoApplies(base, cand);
    RestoredTop(base, cand);
    RestoredIsNormal(base, cand);
  }

  /**
   The restored document is the base apart from its revision, and so has its digest,
   exactly when the base declares defaults or every node of the patched document has
   its own timeout and retry; otherwise a null defaults member stays behind.
   */
  lemma RestoredIsBase(e: Engine, source: Doc, base: Doc, p: Patch, cand: Doc)
    requires Checks(e) && Load(e, source) == Success(base) && ApplyPatch(e, base, p) == Success(cand)
    ensures RevisionOf(cand.members).Some? && ApplyAll(base, p.changes).Success?
    ensures Semantic(Restored(base, cand)) == Semantic(base) <==>
            "defaults" in base.members || !NeedsDefaults(ApplyAll(base, p.changes).value.nodes)
    ensures Semantic(Restored(base, cand)) == Semantic(base) ==> DigestOf(e, Restored(base, cand)) == DigestOf(e, base)
  {
    LoadedFacts(e, source, base);
    CandidateFacts(e, base, p, cand);
    RestoredTop(base, cand);
    SameWithoutRevision(base.members, Restored(base, cand).members);
  }

  lemma SameWithoutRevision(a: map<string, Json>, b: map<string, Json>)
    requires a - {"x_revision", "defaults"} == b - {"x_revision", "defaults"}
    requires "defaults" in a ==> "defaults" in b && a["defaults"] == b["defaults"]
    ensures a - {"x_revision"} == b - {"x_revision"} <==> "defaults" in a || "defaults" !in b
  {
    assert |"defaults"| != |"x_revision"|;
    assert "defaults" in b <==> "defaults" in b - {"x_revision"};
    assert "defaults" in a <==> "defaults" in a - {"x_revision"};
    if "defaults" in a || "defaults" !in b {
      forall k
        ensures k in a - {"x_revision"} <==> k in b - {"x_revision"}
        ensures k in a - {"x_revision"} ==> a[k] == b[k]
      {
        assert k != "defaults" ==> (k in a - {"x_revision"} <==> k in a - {"x_revision", "defaults"});
        assert k != "defaults" ==> (k in b - {"x_revision"} <==> k in b - {"x_revision", "defaults"});
        assert k != "defaults" && k in a - {"x_revision"} ==>
            a[k] == (a - {"x_revision", "defaults"})[k] == (b - {"x_revision", "defaults"})[k];
      }
    }
  }

  /** A workflow that validation accepts, without defaults, whose one node needs none. */
  const LONE := Doc(
    map["format" := Str("dage-workflow"), "format_version" := Str("0.2.0"), "entry" := Str("a")],
    map["a" := map["type" := Str("end"), "name" := Str("a"), "enabled" := Bool(true),
                   "timeout_ms" := Int(1), "retry" := Obj(map[])]])

  /** A node that inherits its timeout and retry. */
  const PLAIN := map["type" := Str("end")]

  lemma LoneKeys()
    ensures LONE.members.Keys == {"format", "format_version", "entry"}
    ensures "entry" in LONE.members && "defaults" !in LONE.members && "x_revision" !in LONE.members
    ensures LONE.nodes.Keys == {"a"} && "b" != "" && "a" != "" && "b" != "a"
  {
    assert |"entry"| == 5 && |"format"| == 6 && |"format_version"| == 14 && |"defaults"| == 8 && |"x_revision"| == 10;
    assert "a"[0] != "b"[0];
  }

  lemma LoneNode()
    ensures NormalizeNode("a", LONE.nodes["a"], map[]) == LONE.nodes["a"] && SelfContained(LONE.nodes["a"])
  {
    var a := LONE.nodes["a"];
    assert "name" in a && "enabled" in a && "timeout_ms" in a && "retry" in a && "type" in a;
    assert a["type"] == Str("end") by {
      assert "type"[0] != "name"[0] && |"type"| == 4 && |"enabled"| == 7 && |"timeout_ms"| == 10 && |"retry"| == 5;
    }
    assert "end" != "llm" && "end" != "noop" by { assert "end"[0] != "llm"[0] && "end"[0] != "noop"[0]; }
    assert "end" != "transform" && "end" != "condition" by { assert |"end"| == 3 && |"transform"| == 9 && |"condition"| == 9; }
    assert ImpliedEffects(a) == map[];
  }

  lemma LoneIsNormal()
    ensures Normalize(LONE) == Success(LONE)
  {
    LoneKeys();
    LoneNode();
    assert Normalize(LONE).value.nodes == LONE.nodes;
  }

  /** LONE with the plain node added. */
  function Added(): Doc {
    LONE.(nodes := LONE.nodes["b" := PLAIN])
  }

  lemma AddedLoads()
    ensures ApplyAll(LONE, [AddNode("b", Obj(PLAIN))]) == Success(Added()) && NeedsDefaults(Added().nodes)
    ensures Bump(Added()).Success? && Normalize(Bump(Added()).value).Success?
    ensures var cand := Normalize(Bump(Added()).value).value;
            "b" in cand.nodes && EntryOf(cand) == EntryOf(LONE)
  {
    LoneKeys();
    var change := AddNode("b", Obj(PLAIN));
    assert [change][1..] == [];
    assert ApplyChange(LONE, change) == Success(Added());
    assert !SelfContained(PLAIN) by { assert |"type"| == 4 && |"timeout_ms"| == 10; }
    assert Added().nodes["b"] == PLAIN;
    BumpKeepsTop(Added(), Bump(Added()).value);
    assert |"entry"| != |"defaults"| && |"entry"| != |"x_revision"| && |"defaults"| != |"x_revision"|;
    NormalizeKeepsTop(Bump(Added()).value, Normalize(Bump(Added()).value).value);
  }

  /** The engine accepts the three documents of the example: the base, the patched one and the restored one. */
  ghost predicate AcceptsExample(e: Engine, cand: Doc)
    requires RevisionOf(cand.members).Some? && Bump(Added()).Success?
  {
    && e.valid(LONE) && e.compiles(LONE)
    && e.valid(Bump(Added()).value) && e.compiles(cand)
    && e.valid(Restored(LONE, cand)) && e.compiles(Restored(LONE, cand))
  }

  /** Adding a node without a timeout and undoing it does leave null defaults behind: the digest input differs. */
  lemma InverseCanLeaveDefaults(e: Engine, cand: Doc)
    requires Checks(e) && Bump(Added()).Success? && Normalize(Bump(Added()).value) == Success(cand)
    requires RevisionOf(cand.members).Some? && AcceptsExample(e, cand)
    ensures Load(e, LONE) == Success(LONE)
    ensures ApplyPatch(e, LONE, Patch(DigestOf(e, LONE), None, [AddNode("b", Obj(PLAIN))])) == Success(cand)
    ensures ApplyPatch(e, cand, Inverse(e, LONE, cand)).Success?
    ensures Semantic(ApplyPatch(e, cand, Inverse(e, LONE, cand)).value) != Semantic(LONE)
  {
    LoneKeys();
    LoneIsNormal();
    AddedLoads();
    var p := Patch(DigestOf(e, LONE), None, [AddNode("b", Obj(PLAIN))]);
    assert CheckBase(e, LONE, p).None?;
    assert ApplyPatch(e, LONE, p) == Success(cand);
    LoneIsUndone(e, p, cand);
  }

  lemma LoneIsUndone(e: Engine, p: Patch, cand: Doc)
    requires Checks(e) && Load(e, LONE) == Success(LONE) && ApplyPatch(e, LONE, p) == Success(cand)
    requires RevisionOf(cand.members).Some? && e.valid(Restored(LONE, cand)) && e.compiles(Restored(LONE, cand))
    requires "b" in cand.nodes && EntryOf(cand) == EntryOf(LONE)
    requires ApplyAll(LONE, p.changes) == Success(Added()) && NeedsDefaults(Added().nodes)
    ensures ApplyPatch(e, cand, Inverse(e, LONE, cand)).Success?
    ensures Semantic(ApplyPatch(e, cand, Inverse(e, LONE, cand)).value) != Semantic(LONE)
  {
    LoneKeys();
    InversePatch(e, LONE, LONE, p, cand);
    RestoredIsBase(e, LONE, LONE, p, cand);
    assert "b" !in LONE.nodes;
  }
}
