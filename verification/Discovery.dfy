/**
 Finding the capability definitions in the source tree
 (scripts/generate_harness_capability_catalog.py, `_discover_definition_refs`). A module is a list
 of top-level statements over syntax nodes; a node is known by its path from the module, as the
 script knows it by its identity.
 */
module Discovery {
  import opened Options

  datatype Kind = Name(id: string) | Attribute(attr: string) | Call | OtherKind

  /** A syntax node; the first child of a call is the function called. */
  datatype Node = Node(kind: Kind, children: seq<Node>)

  datatype Alias = Alias(name: string, asname: Option<string>)

  datatype Statement =
    | ImportFrom(names: seq<Alias>)
    | Assign(targets: seq<Node>, value: Node)
    | AnnAssign(target: Node, annotation: Node, given: Option<Node>)
    | OtherStatement(children: seq<Node>)

  datatype File = File(name: string, body: seq<Statement>)

  type Path = seq<nat>

  const DEFINITION := "CapabilityDefinition"

  // ---------------------------------------------------------------- the syntax

  /** `_call_name`. */
  function CallName(n: Node): Option<string> {
    match n.kind
    case Name(id) => Some(id)
    case Attribute(attr) => Some(attr)
    case _ => None
  }

  predicate Matches(names: set<string>, n: Node) {
    n.kind.Call? && n.children != [] && CallName(n.children[0]).Some? && CallName(n.children[0]).value in names
  }

  /** The value a statement assigns, if it is an assignment. */
  function ValueOf(s: Statement): Option<Node> {
    match s
    case Assign(_, value) => Some(value)
    case AnnAssign(_, _, given) => given
    case _ => None
  }

  function TargetsOf(s: Statement): seq<Node> {
    match s
    case Assign(targets, _) => targets
    case AnnAssign(target, _, _) => [target]
    case _ => []
  }

  /** The parts of a statement, the assigned value last. */
  function Parts(s: Statement): seq<Node> {
    match s
    case ImportFrom(_) => []
    case Assign(targets, value) => targets + [value]
    case AnnAssign(target, annotation, given) => [target, annotation] + if given.Some? then [given.value] else []
    case OtherStatement(children) => children
  }

  /** Where a statement's value is among its parts. */
  lemma ValueIsLast(s: Statement)
    requires ValueOf(s).Some?
    ensures Parts(s) != [] && Parts(s)[|Parts(s)| - 1] == ValueOf(s).value
  {
  }

  function ModuleNode(body: seq<Statement>): Node {
    Node(OtherKind, seq(|body|, i requires 0 <= i < |body| => Node(OtherKind, Parts(body[i]))))
  }

  // ------------------------------------------------------------- calls by path

  predicate CallAt(names: set<string>, n: Node, path: Path) {
    if path == [] then Matches(names, n) else path[0] < |n.children| && CallAt(names, n.children[path[0]], path[1..])
  }

  /** `ast.walk`, keeping the calls of interest. */
  function CallPaths(names: set<string>, n: Node): (paths: set<Path>)
    ensures forall p :: p in paths <==> CallAt(names, n, p)
  {
    var below := set i, p | 0 <= i < |n.children| && p in CallPaths(names, n.children[i]) :: [i] + p;
    assert forall p :: p != [] && CallAt(names, n, p) ==> p == [p[0]] + p[1..];
    below + if Matches(names, n) then {[]} else {}
  }

  /** No call of interest anywhere below, or at, a node. */
  predicate Clean(names: set<string>, n: Node) {
    !Matches(names, n) && forall i :: 0 <= i < |n.children| ==> Clean(names, n.children[i])
  }

  lemma {:induction false} CleanHasNone(names: set<string>, n: Node, path: Path)
    requires Clean(names, n)
    ensures !CallAt(names, n, path)
  {
    if path != [] && path[0] < |n.children| {
      CleanHasNone(names, n.children[path[0]], path[1..]);
    }
  }

  lemma {:induction false} UncleanHasOne(names: set<string>, n: Node) returns (path: Path)
    requires !Clean(names, n)
    ensures CallAt(names, n, path)
  {
    if Matches(names, n) {
      path := [];
    } else {
      var i :| 0 <= i < |n.children| && !Clean(names, n.children[i]);
      var below := UncleanHasOne(names, n.children[i]);
      path := [i] + below;
      assert path[1..] == below;
    }
  }

  // --------------------------------------------------------------- one module

  /** The names a definition can be called by: its own, and what the module imports it as. */
  function CallNames(body: seq<Statement>): set<string> {
    {DEFINITION} + set s, a | s in body && s.ImportFrom? && a in s.names && a.name == DEFINITION
                         :: if a.asname.Some? && a.asname.value != "" then a.asname.value else a.name
  }

  /** A call constructs a definition exactly when it calls the class by its own name or by a name a
      module-level import gives it, plainly or as an attribute. */
  lemma ConstructsIff(body: seq<Statement>, n: Node)
    ensures Matches(CallNames(body), n) <==>
            && n.kind.Call? && n.children != []
            && exists name ::
                 && (n.children[0].kind == Name(name) || n.children[0].kind == Attribute(name))
                 && (name == "CapabilityDefinition" || ImportedAs(body, name))
  {
    if Matches(CallNames(body), n) {
      var name := CallName(n.children[0]).value;
      assert n.children[0].kind == Name(name) || n.children[0].kind == Attribute(name);
    }
  }

  /** The module imports the class under this name. */
  predicate ImportedAs(body: seq<Statement>, name: string) {
    exists s, a :: s in body && s.ImportFrom? && a in s.names && a.name == "CapabilityDefinition"
                   && name == if a.asname.Some? && a.asname.value != "" then a.asname.value else a.name
  }

  predicate Declares(names: set<string>, s: Statement) {
    ValueOf(s).Some? && Matches(names, ValueOf(s).value)
  }

  function ValuePath(body: seq<Statement>, i: nat): Path
    requires i < |body| && ValueOf(body[i]).Some?
  {
    [i, |Parts(body[i])| - 1]
  }

  /** The references a declaring statement gives: one for each target that is a plain name. */
  function Refs(name: string, s: Statement): set<string> {
    set t | t in TargetsOf(s) && t.kind.Name? :: name + ":" + t.kind.id
  }

  function FileRefs(f: File): set<string> {
    set s, r | s in f.body && Declares(CallNames(f.body), s) && r in Refs(f.name, s) :: r
  }

  /** A statement in which a definition is constructed, if at all, as the value it assigns, and
      nowhere else: not in a target, not nested in another call, not in an argument of its own. */
  predicate Proper(names: set<string>, s: Statement) {
    var parts := Parts(s);
    if Declares(names, s) then
      && (forall k :: 0 <= k < |parts| - 1 ==> Clean(names, parts[k]))
      && (forall k :: 0 <= k < |ValueOf(s).value.children| ==> Clean(names, ValueOf(s).value.children[k]))
    else forall k :: 0 <= k < |parts| ==> Clean(names, parts[k])
  }

  /** Every definition constructed in a module is the whole value of a module-level assignment. */
  predicate AllAssigned(f: File) {
    forall i :: 0 <= i < |f.body| ==> Proper(CallNames(f.body), f.body[i])
  }

  ghost predicate Declared(names: set<string>, body: seq<Statement>, p: Path) {
    exists i :: 0 <= i < |body| && Declares(names, body[i]) && p == ValuePath(body, i)
  }

  /** Comparing the calls walked with the values declared finds exactly the modules in which some
      call is not the whole value of a module-level assignment. */
  lemma UndeclaredIff(f: File)
    ensures AllAssigned(f) <==> forall p :: CallAt(CallNames(f.body), ModuleNode(f.body), p) ==> Declared(CallNames(f.body), f.body, p)
  {
    var names := CallNames(f.body);
    if AllAssigned(f) {
      forall p | CallAt(names, ModuleNode(f.body), p)
        ensures Declared(names, f.body, p)
      {
        CallInside(names, f.body, p);
      }
    }
    forall i | 0 <= i < |f.body| && !Proper(names, f.body[i])
      ensures exists p :: CallAt(names, ModuleNode(f.body), p) && !Declared(names, f.body, p)
    {
      var p := StrayCall(names, f.body, i);
      assert !Declared(names, f.body, p);
    }
  }

  lemma CallInside(names: set<string>, body: seq<Statement>, p: Path)
    requires CallAt(names, ModuleNode(body), p) && forall i :: 0 <= i < |body| ==> Proper(names, body[i])
    ensures Declared(names, body, p)
  {
    var i := p[0];
    var s, k := body[i], p[1..][0];
    var deeper: Path := p[1..][1..];
    assert CallAt(names, Parts(s)[k], deeper);
    if Clean(names, Parts(s)[k]) {
      CleanHasNone(names, Parts(s)[k], deeper);
      assert false;
    }
    assert Proper(names, s);
    ValueIsLast(s);
    assert k == |Parts(s)| - 1;
    if deeper != [] {
      CleanHasNone(names, ValueOf(s).value.children[deeper[0]], deeper[1..]);
      assert false;
    }
    assert p == ValuePath(body, i);
  }

  /** An improper statement holds a call at a path that is not its value's. */
  lemma StrayCall(names: set<string>, body: seq<Statement>, i: nat) returns (p: Path)
    requires i < |body| && !Proper(names, body[i])
    ensures CallAt(names, ModuleNode(body), p) && |p| >= 2 && p[0] == i
    ensures Declares(names, body[i]) ==> p != ValuePath(body, i)
  {
    var s := body[i];
    var parts := Parts(s);
    if k :| 0 <= k < |parts| && !Clean(names, parts[k]) && !(Declares(names, s) && k == |parts| - 1) {
      var q := UncleanHasOne(names, parts[k]);
      p := [i, k] + q;
      InModule(names, body, i, k, q);
    } else {
      ValueIsLast(s);
      var value := ValueOf(s).value;
      var c :| 0 <= c < |value.children| && !Clean(names, value.children[c]);
      var q := UncleanHasOne(names, value.children[c]);
      assert ([c] + q)[1..] == q;
      p := [i, |parts| - 1] + ([c] + q);
      InModule(names, body, i, |parts| - 1, [c] + q);
    }
  }

  lemma InModule(names: set<string>, body: seq<Statement>, i: nat, k: nat, q: Path)
    requires i < |body| && k < |Parts(body[i])| && CallAt(names, Parts(body[i])[k], q)
    ensures CallAt(names, ModuleNode(body), [i, k] + q)
  {
    assert ([i, k] + q)[1..] == [k] + q && ([k] + q)[1..] == q;
  }

  /** The paths of the values declared by the first `n` statements. */
  ghost predicate DeclaredBy(names: set<string>, body: seq<Statement>, n: nat, paths: set<Path>)
    requires n <= |body|
  {
    forall p :: p in paths <==> exists i :: 0 <= i < n && Declares(names, body[i]) && p == ValuePath(body, i)
  }

  ghost function RefsBy(names: set<string>, f: File, n: nat): set<string>
    requires n <= |f.body|
  {
    set s, r | s in f.body[..n] && Declares(names, s) && r in Refs(f.name, s) :: r
  }

  lemma OneMoreStatement(names: set<string>, f: File, n: nat, paths: set<Path>)
    requires n < |f.body| && DeclaredBy(names, f.body, n, paths)
    ensures Declares(names, f.body[n]) ==> DeclaredBy(names, f.body, n + 1, paths + {ValuePath(f.body, n)})
    ensures !Declares(names, f.body[n]) ==> DeclaredBy(names, f.body, n + 1, paths)
    ensures RefsBy(names, f, n + 1)
            == RefsBy(names, f, n) + if Declares(names, f.body[n]) then Refs(f.name, f.body[n]) else {}
  {
    hide Refs, Declares, ValuePath;
    assert f.body[..n + 1] == f.body[..n] + [f.body[n]];
    assert ValueOf(f.body[n]).None? ==> !Declares(names, f.body[n]) by {
      NoValue(names, f.body[n]);
    }
  }

  lemma NoValue(names: set<string>, s: Statement)
    ensures ValueOf(s).None? ==> !Declares(names, s)
  {
  }

  lemma AllDeclared(f: File, calls: set<Path>, paths: set<Path>)
    requires forall p :: p in calls <==> CallAt(CallNames(f.body), ModuleNode(f.body), p)
    requires DeclaredBy(CallNames(f.body), f.body, |f.body|, paths)
    ensures calls - paths == {} <==> AllAssigned(f)
    ensures RefsBy(CallNames(f.body), f, |f.body|) == FileRefs(f)
  {
    hide AllAssigned, CallAt, CallNames, Declares, ValuePath, Refs;
    UndeclaredIff(f);
    assert f.body[..|f.body|] == f.body;
    assert forall p :: p in paths <==> Declared(CallNames(f.body), f.body, p);
    if calls - paths == {} {
      forall p | p in calls ensures p in paths {
        assert p !in calls - paths;
      }
    }
  }

  /** The body of the loop over the files: the references of a module, or none at all if some call
      in it is not declared. */
  method DiscoverFile(f: File) returns (refs: Option<set<string>>)
    ensures refs == if AllAssigned(f) then Some(FileRefs(f)) else None
  {
    hide AllAssigned, CallAt, Refs, FileRefs, DeclaredBy, RefsBy, CallNames;
    var names := CallNames(f.body);
    var calls := CallPaths(names, ModuleNode(f.body));
    var declared: set<Path> := {};
    var found: set<string> := {};
    NothingDeclared(names, f);
    for i := 0 to |f.body|
      invariant DeclaredBy(names, f.body, i, declared)
      invariant found == RefsBy(names, f, i)
    {
      OneMoreStatement(names, f, i, declared);
      var s := f.body[i];
      if ValueOf(s).None? || !Matches(names, ValueOf(s).value) {
        continue;
      }
      declared := declared + {ValuePath(f.body, i)};
      found := found + Refs(f.name, s);
    }
    AllDeclared(f, calls, declared);
    refs := if calls - declared != {} then None else Some(found);
  }

  lemma NothingDeclared(names: set<string>, f: File)
    ensures DeclaredBy(names, f.body, 0, {}) && RefsBy(names, f, 0) == {}
  {
  }

  // ------------------------------------------------------------- the whole tree

  function AllRefs(files: seq<File>): set<string> {
    set f, r | f in files && r in FileRefs(f) :: r
  }

  /** `_discover_definition_refs`: it succeeds exactly when every definition constructed anywhere is
      the whole value of a module-level assignment, whatever it is assigned to, and then finds the
      plain names among the targets. */
  method DiscoverDefinitionRefs(files: seq<File>) returns (refs: Option<set<string>>)
    ensures refs == if forall f :: f in files ==> AllAssigned(f) then Some(AllRefs(files)) else None
  {
    hide AllAssigned, FileRefs;
    var discovered: set<string> := {};
    for i := 0 to |files|
      invariant forall k :: 0 <= k < i ==> AllAssigned(files[k])
      invariant discovered == AllRefs(files[..i])
    {
      assert files[..i + 1] == files[..i] + [files[i]];
      var found := DiscoverFile(files[i]);
      if found.None? {
        assert files[i] in files;
        return None;
      }
      discovered := discovered + found.value;
    }
    assert files[..|files|] == files;
    refs := Some(discovered);
  }

  /** In a module that passes every call is the value of one statement, and it gives a reference
      exactly when one of that statement's targets is a plain name: a definition assigned only to
      attributes or patterns passes without one. */
  lemma AssignedCallRefs(f: File, p: Path)
    requires AllAssigned(f) && CallAt(CallNames(f.body), ModuleNode(f.body), p)
    ensures exists i :: 0 <= i < |f.body| && Declares(CallNames(f.body), f.body[i]) && p == ValuePath(f.body, i)
                        && Refs(f.name, f.body[i]) <= FileRefs(f)
                        && (Refs(f.name, f.body[i]) != {} <==> exists t :: t in TargetsOf(f.body[i]) && t.kind.Name?)
  {
    hide CallAt, Proper, CallNames, ValuePath;
    UndeclaredIff(f);
    assert Declared(CallNames(f.body), f.body, p);
    var i :| 0 <= i < |f.body| && Declares(CallNames(f.body), f.body[i]) && p == ValuePath(f.body, i);
    var s := f.body[i];
    assert s in f.body;
    if t :| t in TargetsOf(s) && t.kind.Name? {
      assert f.name + ":" + t.kind.id in Refs(f.name, s);
    }
    if r :| r in Refs(f.name, s) {
    }
  }

  /** Such a module: its one definition is assigned to an attribute, and discovery passes over it. */
  lemma SilentDeclaration()
    ensures var call := Node(Call, [Node(Name(DEFINITION), [])]);
            var f := File("m", [Assign([Node(Attribute("a"), [Node(Name("x"), [])])], call)]);
            && AllAssigned(f) && FileRefs(f) == {}
            && CallAt(CallNames(f.body), ModuleNode(f.body), [0, 1])
  {
    var call := Node(Call, [Node(Name(DEFINITION), [])]);
    var target := Node(Attribute("a"), [Node(Name("x"), [])]);
    var s := Assign([target], call);
    var f := File("m", [s]);
    var names := CallNames(f.body);
    assert names == {DEFINITION};
    assert Parts(s) == [target, call];
    assert Matches(names, call);
    assert !Matches(names, target) && Clean(names, target.children[0]);
    assert Clean(names, target) && Clean(names, call.children[0]);
    assert Proper(names, s);
    assert CallAt(names, Parts(s)[1], []);
    InModule(names, f.body, 0, 1, []);
    assert [0, 1] + [] == [0 as nat, 1];
    assert Refs("m", s) == {};
  }

  // ------------------------------------------------- what a reference refers to

  /** The plain names a statement binds. */
  function Bound(s: Statement): set<string> {
    if ValueOf(s).None? then {} else set t | t in TargetsOf(s) && t.kind.Name? :: t.kind.id
  }

  /** After a module has been executed: by which of its assignments each name was bound last. */
  function Environment(body: seq<Statement>): map<string, nat> {
    if body == [] then map[]
    else
      var n, bound := |body| - 1, Bound(body[|body| - 1]);
      Environment(body[..n]) + map id: string | id in bound :: n
  }

  predicate Holds(body: seq<Statement>, id: string, i: nat) {
    id in Environment(body) && Environment(body)[id] == i
  }

  lemma {:induction false} HoldsIff(body: seq<Statement>, id: string, i: nat)
    ensures Holds(body, id, i) <==>
            i < |body| && id in Bound(body[i]) && forall j :: i < j < |body| ==> id !in Bound(body[j])
  {
    hide Bound;
    if body != [] {
      var n := |body| - 1;
      HoldsIff(body[..n], id, i);
      if i < n {
        assert body[..n][i] == body[i];
        assert forall j :: i < j < n ==> body[..n][j] == body[j];
      }
    }
  }

  /** A constructed definition is the one that some reference found for its module refers to, exactly
      when a plain-name target of its statement is bound by no later assignment of the module. */
  lemma ReferredIff(f: File, i: nat)
    requires i < |f.body| && Declares(CallNames(f.body), f.body[i])
    ensures (exists id :: f.name + ":" + id in FileRefs(f) && Holds(f.body, id, i))
            <==> exists id :: id in Bound(f.body[i]) && forall j :: i < j < |f.body| ==> id !in Bound(f.body[j])
  {
    hide Holds, Declares, CallNames;
    if id :| f.name + ":" + id in FileRefs(f) && Holds(f.body, id, i) {
      HoldsIff(f.body, id, i);
    }
    if id :| id in Bound(f.body[i]) && forall j :: i < j < |f.body| ==> id !in Bound(f.body[j]) {
      HoldsIff(f.body, id, i);
      assert f.body[i] in f.body && f.name + ":" + id in Refs(f.name, f.body[i]);
    }
  }

  /** One name declared twice: the module passes with two definitions constructed and one reference,
      which refers to the second; the first is in no catalog. */
  lemma DeclaredTwice()
    ensures var s := Assign([Node(Name("X"), [])], Node(Call, [Node(Name(DEFINITION), [])]));
            var f := File("m", [s, s]);
            && AllAssigned(f) && FileRefs(f) == {"m:X"}
            && CallAt(CallNames(f.body), ModuleNode(f.body), [0, 1]) && CallAt(CallNames(f.body), ModuleNode(f.body), [1, 1])
            && Holds(f.body, "X", 1) && !exists id :: Holds(f.body, id, 0)
  {
    var target, call := Node(Name("X"), []), Node(Call, [Node(Name(DEFINITION), [])]);
    var s := Assign([target], call);
    var f := File("m", [s, s]);
    var names := CallNames(f.body);
    assert names == {DEFINITION};
    assert Parts(s) == [target, call];
    assert Matches(names, call) && Clean(names, target) && Clean(names, call.children[0]);
    assert Proper(names, s);
    InModule(names, f.body, 0, 1, []);
    InModule(names, f.body, 1, 1, []);
    assert [0, 1] + [] == [0 as nat, 1] && [1, 1] + [] == [1 as nat, 1];
    hide CallAt, Clean, Matches, Proper;
    OneName(s, f.body);
    OneRef(s);
    assert s in f.body;
    assert FileRefs(f) == {"m:X"};
  }

  lemma OneRef(s: Statement)
    requires TargetsOf(s) == [Node(Name("X"), [])]
    ensures Refs("m", s) == {"m:X"}
  {
    assert "m" + ":" + "X" == "m:X";
    assert Node(Name("X"), []) in TargetsOf(s);
  }

  lemma OneName(s: Statement, body: seq<Statement>)
    requires ValueOf(s).Some? && TargetsOf(s) == [Node(Name("X"), [])] && body == [s, s]
    ensures Holds(body, "X", 1) && !exists id :: Holds(body, id, 0)
  {
    assert Node(Name("X"), []) in TargetsOf(s);
    assert Bound(s) == {"X"};
    HoldsIff(body, "X", 1);
    if id :| Holds(body, id, 0) {
      HoldsIff(body, id, 0);
      assert false;
    }
  }

  // --------------------------------------------------------- what a module uses

  /** `_mentions`: a name anywhere in a tree. */
  predicate Mentions(n: Node, symbol: string) {
    n.kind == Name(symbol) || exists i :: 0 <= i < |n.children| && Mentions(n.children[i], symbol)
  }

  /** A call of `callee` anywhere in a tree, with a name anywhere in it. */
  predicate CallsWith(n: Node, callee: string, symbol: string) {
    || (n.kind.Call? && n.children != [] && CallName(n.children[0]) == Some(callee) && Mentions(n, symbol))
    || exists i :: 0 <= i < |n.children| && CallsWith(n.children[i], callee, symbol)
  }

  // ----------------------------------------------- statement by statement, spelled out

  /** The value is a construction and nothing in it is another. */
  predicate Whole(names: set<string>, value: Node) {
    Matches(names, value) && forall k :: 0 <= k < |value.children| ==> Clean(names, value.children[k])
  }

  /** What each kind of statement may hold: an import nothing to look at, an assignment, annotated or
      not, one construction as its whole value, a declaration without a value none, any other none. */
  lemma ProperIff(names: set<string>, s: Statement)
    ensures Proper(names, s) <==>
            && (s.Assign? ==>
                  (forall t :: t in s.targets ==> Clean(names, t)) && (Clean(names, s.value) || Whole(names, s.value)))
            && (s.AnnAssign? ==>
                  && Clean(names, s.target) && Clean(names, s.annotation)
                  && (s.given.Some? ==> Clean(names, s.given.value) || Whole(names, s.given.value)))
            && (s.OtherStatement? ==> forall c :: c in s.children ==> Clean(names, c))
  {
    hide Matches, Clean;
    if s.Assign? {
      CleanMembers(names, s.targets);
      CleanOrMatches(names, s.value);
      assert forall k :: 0 <= k < |s.targets| ==> Parts(s)[k] == s.targets[k];
      assert Parts(s)[|s.targets|] == s.value;
    } else if s.AnnAssign? {
      assert Parts(s)[0] == s.target && Parts(s)[1] == s.annotation;
      if s.given.Some? {
        CleanOrMatches(names, s.given.value);
        assert Parts(s)[2] == s.given.value;
      }
    } else if s.OtherStatement? {
      CleanMembers(names, s.children);
    }
  }

  lemma CleanMembers(names: set<string>, nodes: seq<Node>)
    ensures (forall n :: n in nodes ==> Clean(names, n)) <==> forall k :: 0 <= k < |nodes| ==> Clean(names, nodes[k])
  {
    hide Clean;
    if forall n :: n in nodes ==> Clean(names, n) {
      forall k | 0 <= k < |nodes| ensures Clean(names, nodes[k]) {
        assert nodes[k] in nodes;
      }
    }
  }

  lemma CleanOrMatches(names: set<string>, n: Node)
    ensures Clean(names, n) <==> !Matches(names, n) && forall k :: 0 <= k < |n.children| ==> Clean(names, n.children[k])
  {
  }

  /** The references of a statement: its plain-name targets, annotated or not. */
  lemma RefsIff(name: string, s: Statement, r: string)
    ensures r in Refs(name, s) <==>
            || (s.Assign? && exists t :: t in s.targets && t.kind.Name? && r == name + ":" + t.kind.id)
            || (s.AnnAssign? && s.target.kind.Name? && r == name + ":" + s.target.kind.id)
  {
  }

  /** The node at a path. */
  function NodeAt(n: Node, path: Path): Option<Node> {
    if path == [] then Some(n)
    else if path[0] < |n.children| then NodeAt(n.children[path[0]], path[1..])
    else None
  }

  /** A symbol is mentioned exactly when some node of the tree is that name. */
  lemma {:induction false} MentionsIff(n: Node, symbol: string)
    ensures Mentions(n, symbol) <==> exists path :: NodeAt(n, path).Some? && NodeAt(n, path).value.kind == Name(symbol)
  {
    if Mentions(n, symbol) {
      var path := MentionedAt(n, symbol);
    }
    if path :| NodeAt(n, path).Some? && NodeAt(n, path).value.kind == Name(symbol) {
      MentionedBy(n, symbol, path);
    }
  }

  lemma {:induction false} MentionedAt(n: Node, symbol: string) returns (path: Path)
    requires Mentions(n, symbol)
    ensures NodeAt(n, path).Some? && NodeAt(n, path).value.kind == Name(symbol)
  {
    if n.kind == Name(symbol) {
      path := [];
    } else {
      var i :| 0 <= i < |n.children| && Mentions(n.children[i], symbol);
      var below := MentionedAt(n.children[i], symbol);
      path := [i] + below;
      assert path[1..] == below;
    }
  }

  lemma {:induction false} MentionedBy(n: Node, symbol: string, path: Path)
    requires NodeAt(n, path).Some? && NodeAt(n, path).value.kind == Name(symbol)
    ensures Mentions(n, symbol)
  {
    if path != [] {
      MentionedBy(n.children[path[0]], symbol, path[1..]);
    }
  }

  /** The node calls `callee`, by its name or as an attribute, and mentions the symbol. */
  predicate IsCallWith(n: Node, callee: string, symbol: string) {
    && n.kind == Call && n.children != []
    && (n.children[0].kind == Name(callee) || n.children[0].kind == Attribute(callee))
    && Mentions(n, symbol)
  }

  /** A callee is called with a symbol exactly when some node of the tree does it. */
  lemma {:induction false} CallsWithIff(n: Node, callee: string, symbol: string)
    ensures CallsWith(n, callee, symbol) <==>
            exists path :: NodeAt(n, path).Some? && IsCallWith(NodeAt(n, path).value, callee, symbol)
  {
    if CallsWith(n, callee, symbol) {
      var path := CalledAt(n, callee, symbol);
    }
    if path :| NodeAt(n, path).Some? && IsCallWith(NodeAt(n, path).value, callee, symbol) {
      CalledBy(n, callee, symbol, path);
    }
  }

  lemma {:induction false} CalledAt(n: Node, callee: string, symbol: string) returns (path: Path)
    requires CallsWith(n, callee, symbol)
    ensures NodeAt(n, path).Some? && IsCallWith(NodeAt(n, path).value, callee, symbol)
  {
    hide Mentions;
    if IsCallWith(n, callee, symbol) {
      path := [];
    } else {
      var i :| 0 <= i < |n.children| && CallsWith(n.children[i], callee, symbol);
      var below := CalledAt(n.children[i], callee, symbol);
      path := [i] + below;
      assert path[1..] == below;
    }
  }

  lemma {:induction false} CalledBy(n: Node, callee: string, symbol: string, path: Path)
    requires NodeAt(n, path).Some? && IsCallWith(NodeAt(n, path).value, callee, symbol)
    ensures CallsWith(n, callee, symbol)
  {
    hide Mentions;
    if path != [] {
      CalledBy(n.children[path[0]], callee, symbol, path[1..]);
    }
  }
}
