/**
 * The import-closure scan: every file that CLAUDE.md imports, directly or through other files, is
 * searched for imports of knowledge content, depth first and at most five imports deep.
 */
module ImportClosure {
  import opened Wrappers

  type File = string

  /** Where an import points. */
  datatype Target = Knowledge | RepoLocal(member: File) | Outside

  /** An import and the line, from 1, that holds it. */
  datatype Import = Import(line: nat, target: Target)

  /** The readable files, each with the imports found on its unmasked lines, in order. */
  type Tree = map<File, seq<Import>>

  datatype Finding = Finding(file: File, line: nat)

  const ROOT: File := "CLAUDE.md"
  const IMPORT_MAX_DEPTH: nat := 5

  // ---- The import graph ----

  ghost predicate Edge(tree: Tree, a: File, b: File) {
    a in tree && exists i | 0 <= i < |tree[a]| :: tree[a][i].target == RepoLocal(b)
  }

  /** A chain of imports that starts at the root file. */
  ghost predicate Path(tree: Tree, p: seq<File>) {
    p != [] && p[0] == ROOT && forall i | 0 <= i < |p| - 1 :: Edge(tree, p[i], p[i + 1])
  }

  ghost predicate PathTo(tree: Tree, p: seq<File>, f: File) {
    Path(tree, p) && p[|p| - 1] == f
  }

  ghost predicate Reachable(tree: Tree, f: File) {
    exists p :: PathTo(tree, p, f)
  }

  ghost predicate NoRepeats(p: seq<File>) {
    forall i, j | 0 <= i < j < |p| :: p[i] != p[j]
  }

  ghost predicate SimplePath(tree: Tree, p: seq<File>) {
    Path(tree, p) && NoRepeats(p)
  }

  // ---- The traversal as a function ----

  type Stack = seq<(File, nat)>

  /** The files read, in order; the members that the depth cap kept off the stack; the unreadable file. */
  datatype Outcome = Outcome(files: seq<File>, cut: set<File>, failed: Option<File>)

  /** The repo-local members among the imports, one level deeper. */
  function Queued(imports: seq<Import>, depth: nat): Stack {
    if imports == [] then []
    else
      var last := imports[|imports| - 1];
      Queued(imports[..|imports| - 1], depth) +
      (match last.target case RepoLocal(member) => [(member, depth)] case _ => [])
  }

  function Members(imports: seq<Import>): set<File> {
    set i | 0 <= i < |imports| && imports[i].target.RepoLocal? :: imports[i].target.member
  }

  function Scan(tree: Tree, stack: Stack, visited: set<File>): Outcome
    decreases |tree.Keys - visited|, |stack|
  {
    if stack == [] then Outcome([], {}, None)
    else
      var (rel, depth) := stack[|stack| - 1];
      var rest := stack[..|stack| - 1];
      if rel in visited then Scan(tree, rest, visited)
      else if rel !in tree then Outcome([], {}, Some(rel))
      else
        Smaller(tree.Keys, visited, rel);
        var below := Scan(tree, rest + Pushed(tree, rel, depth), visited + {rel});
        Outcome([rel] + below.files, CutAt(tree, rel, depth) + below.cut, below.failed)
  }

  lemma Smaller(keys: set<File>, visited: set<File>, rel: File)
    requires rel in keys && rel !in visited
    ensures |keys - (visited + {rel})| < |keys - visited|
  {
    assert keys - visited == keys - (visited + {rel}) + {rel};
  }

  function Pushed(tree: Tree, rel: File, depth: nat): Stack
    requires rel in tree
  {
    if depth < IMPORT_MAX_DEPTH then Queued(tree[rel], depth + 1) else []
  }

  function CutAt(tree: Tree, rel: File, depth: nat): set<File>
    requires rel in tree
  {
    if depth < IMPORT_MAX_DEPTH then {} else Members(tree[rel])
  }

  lemma {:induction false} InQueued(imports: seq<Import>, depth: nat, entry: (File, nat))
    ensures entry in Queued(imports, depth) <==> entry.1 == depth && entry.0 in Members(imports)
  {
    if imports != [] {
      var before, last := imports[..|imports| - 1], imports[|imports| - 1];
      InQueued(before, depth, entry);
      assert imports == before + [last];
      assert Members(imports) == Members(before) + (if last.target.RepoLocal? then {last.target.member} else {});
    }
  }

  lemma EdgeIsMember(tree: Tree, a: File, b: File)
    ensures Edge(tree, a, b) <==> a in tree && b in Members(tree[a])
  {
  }

  // ---- What is read ----

  /** Each entry stands at the end of a path of visited files as long as its depth says. */
  ghost predicate Grounded(tree: Tree, stack: Stack, visited: set<File>) {
    forall e | e in stack :: GroundedEntry(tree, e, visited)
  }

  ghost predicate GroundedEntry(tree: Tree, e: (File, nat), visited: set<File>) {
    e.1 <= IMPORT_MAX_DEPTH && exists p :: GroundedBy(tree, p, e, visited)
  }

  ghost predicate GroundedBy(tree: Tree, p: seq<File>, e: (File, nat), visited: set<File>) {
    && PathTo(tree, p, e.0) && |p| == e.1 + 1
    && NoRepeats(p[..e.1]) && forall f | f in p[..e.1] :: f in visited
  }

  /** Reading an unvisited file extends its path to a simple one, on which its members stand. */
  lemma PushGrounded(tree: Tree, rel: File, depth: nat, visited: set<File>, p: seq<File>, member: File)
    requires rel in tree && rel !in visited && GroundedBy(tree, p, (rel, depth), visited)
    requires member in Members(tree[rel])
    ensures SimplePath(tree, p) && Path(tree, p + [member])
    ensures forall f | f in p :: f in visited + {rel}
    ensures GroundedBy(tree, p + [member], (member, depth + 1), visited + {rel})
  {
    assert p == p[..depth] + [rel];
    EdgeIsMember(tree, rel, member);
    var q := p + [member];
    assert q[..depth + 1] == p;
    forall i | 0 <= i < |q| - 1
      ensures Edge(tree, q[i], q[i + 1])
    {
      assert i < |p| - 1 ==> q[i + 1] == p[i + 1];
    }
  }

  lemma StayGrounded(tree: Tree, stack: Stack, visited: set<File>, more: set<File>)
    requires Grounded(tree, stack, visited)
    ensures Grounded(tree, stack, visited + more)
  {
    forall e | e in stack
      ensures GroundedEntry(tree, e, visited + more)
    {
      var p :| GroundedBy(tree, p, e, visited);
      assert GroundedBy(tree, p, e, visited + more);
    }
  }

  lemma NextGrounded(tree: Tree, stack: Stack, visited: set<File>)
    requires Grounded(tree, stack, visited) && stack != []
    ensures Grounded(tree, stack[..|stack| - 1], visited)
    ensures var (rel, depth) := stack[|stack| - 1];
            rel in tree && rel !in visited ==>
              Grounded(tree, stack[..|stack| - 1] + Pushed(tree, rel, depth), visited + {rel})
  {
    var (rel, depth) := stack[|stack| - 1];
    var rest := stack[..|stack| - 1];
    StayGrounded(tree, rest, visited, {rel});
    if rel in tree && rel !in visited {
      assert GroundedEntry(tree, stack[|stack| - 1], visited);
      var p :| GroundedBy(tree, p, (rel, depth), visited);
      forall e | e in Pushed(tree, rel, depth)
        ensures GroundedEntry(tree, e, visited + {rel})
      {
        InQueued(tree[rel], depth + 1, e);
        PushGrounded(tree, rel, depth, visited, p, e.0);
      }
    }
  }

  /** No file is read twice, and each one stands at most five imports from the root. */
  lemma {:induction false} ReadsOnceWithinFive(tree: Tree, stack: Stack, visited: set<File>)
    requires Grounded(tree, stack, visited)
    ensures NoRepeats(Scan(tree, stack, visited).files)
    ensures forall f | f in Scan(tree, stack, visited).files ::
              f in tree && f !in visited && exists p :: PathTo(tree, p, f) && |p| <= IMPORT_MAX_DEPTH + 1
    decreases |tree.Keys - visited|, |stack|
  {
    if stack != [] {
      var (rel, depth) := stack[|stack| - 1];
      var rest := stack[..|stack| - 1];
      NextGrounded(tree, stack, visited);
      if rel in visited {
        ReadsOnceWithinFive(tree, rest, visited);
      } else if rel in tree {
        Smaller(tree.Keys, visited, rel);
        ReadsOnceWithinFive(tree, rest + Pushed(tree, rel, depth), visited + {rel});
        assert GroundedEntry(tree, stack[|stack| - 1], visited);
        var p :| GroundedBy(tree, p, (rel, depth), visited);
        assert PathTo(tree, p, rel) && |p| <= IMPORT_MAX_DEPTH + 1;
      }
    }
  }

  /** Every member the cap cut is read anyway, or ends a simple path of six imports. */
  lemma {:induction false} CutEndsLongPath(tree: Tree, stack: Stack, visited: set<File>, b: File)
    requires Grounded(tree, stack, visited) && b in Scan(tree, stack, visited).cut
    ensures b in visited || b in Scan(tree, stack, visited).files
            || exists p :: SimplePath(tree, p) && |p| == IMPORT_MAX_DEPTH + 2
    decreases |tree.Keys - visited|, |stack|
  {
    var (rel, depth) := stack[|stack| - 1];
    var rest := stack[..|stack| - 1];
    NextGrounded(tree, stack, visited);
    if rel in visited {
      CutEndsLongPath(tree, rest, visited, b);
    } else {
      Smaller(tree.Keys, visited, rel);
      if b in CutAt(tree, rel, depth) {
        assert GroundedEntry(tree, stack[|stack| - 1], visited);
        var p :| GroundedBy(tree, p, (rel, depth), visited);
        PushGrounded(tree, rel, depth, visited, p, b);
        if b !in visited + {rel} {
          assert SimplePath(tree, p + [b]);
        }
      } else {
        CutEndsLongPath(tree, rest + Pushed(tree, rel, depth), visited + {rel}, b);
      }
    }
  }

  // ---- What is reached ----

  ghost predicate OnStack(stack: Stack, f: File) {
    exists e | e in stack :: e.0 == f
  }

  /** A complete scan reads everything that waits on the stack. */
  lemma {:induction false} StackIsRead(tree: Tree, stack: Stack, visited: set<File>, f: File)
    requires Scan(tree, stack, visited).failed.None? && OnStack(stack, f)
    ensures f in visited || f in Scan(tree, stack, visited).files
    decreases |tree.Keys - visited|, |stack|
  {
    var e :| e in stack && e.0 == f;
    var (rel, depth) := stack[|stack| - 1];
    var rest := stack[..|stack| - 1];
    if rel != f {
      assert e in rest;
      if rel in visited {
        StackIsRead(tree, rest, visited, f);
      } else {
        Smaller(tree.Keys, visited, rel);
        assert e in rest + Pushed(tree, rel, depth);
        StackIsRead(tree, rest + Pushed(tree, rel, depth), visited + {rel}, f);
      }
    }
  }

  /** After a complete scan nothing that a file read imports is missing, except what was cut. */
  lemma {:induction false} ImportIsAccounted(tree: Tree, stack: Stack, visited: set<File>, a: File, b: File)
    requires Scan(tree, stack, visited).failed.None?
    requires a in Scan(tree, stack, visited).files && Edge(tree, a, b)
    ensures b in visited || b in Scan(tree, stack, visited).files || b in Scan(tree, stack, visited).cut
    decreases |tree.Keys - visited|, |stack|
  {
    var (rel, depth) := stack[|stack| - 1];
    var rest := stack[..|stack| - 1];
    if rel in visited {
      ImportIsAccounted(tree, rest, visited, a, b);
    } else {
      Smaller(tree.Keys, visited, rel);
      var stack' := rest + Pushed(tree, rel, depth);
      if a == rel {
        EdgeIsMember(tree, a, b);
        if depth < IMPORT_MAX_DEPTH {
          InQueued(tree[rel], depth + 1, (b, depth + 1));
          assert (b, depth + 1) in stack';
          StackIsRead(tree, stack', visited + {rel}, b);
        }
      } else {
        ImportIsAccounted(tree, stack', visited + {rel}, a, b);
      }
    }
  }

  const START: Stack := [(ROOT, 0)]

  /** The scan of a whole tree, from the root file. */
  function ScanTree(tree: Tree): Outcome {
    Scan(tree, START, {})
  }

  lemma StartGrounded(tree: Tree)
    ensures Grounded(tree, START, {})
  {
    assert GroundedBy(tree, [ROOT], (ROOT, 0), {});
  }

  lemma ReadsAreNear(tree: Tree)
    ensures NoRepeats(ScanTree(tree).files)
    ensures forall f | f in ScanTree(tree).files ::
              exists p :: PathTo(tree, p, f) && |p| <= IMPORT_MAX_DEPTH + 1
  {
    StartGrounded(tree);
    ReadsOnceWithinFive(tree, START, {});
  }

  /** A scan fails only at a file that cannot be read, at most five imports from the root. */
  lemma {:induction false} FailsAtUnreadable(tree: Tree, stack: Stack, visited: set<File>)
    requires Grounded(tree, stack, visited) && Scan(tree, stack, visited).failed.Some?
    ensures var f := Scan(tree, stack, visited).failed.value;
            f !in tree && exists p :: PathTo(tree, p, f) && |p| <= IMPORT_MAX_DEPTH + 1
    decreases |tree.Keys - visited|, |stack|
  {
    var (rel, depth) := stack[|stack| - 1];
    var rest := stack[..|stack| - 1];
    NextGrounded(tree, stack, visited);
    if rel in visited {
      FailsAtUnreadable(tree, rest, visited);
    } else if rel in tree {
      Smaller(tree.Keys, visited, rel);
      FailsAtUnreadable(tree, rest + Pushed(tree, rel, depth), visited + {rel});
    } else {
      assert GroundedEntry(tree, stack[|stack| - 1], visited);
      var p :| GroundedBy(tree, p, (rel, depth), visited);
      assert PathTo(tree, p, rel);
    }
  }

  /** A scan of the tree goes through when every file within five imports of the root can be read. */
  lemma ReadableNeverFails(tree: Tree)
    requires forall p | Path(tree, p) && |p| <= 6 :: p[|p| - 1] in tree
    ensures ScanTree(tree).failed.None?
  {
    StartGrounded(tree);
    if ScanTree(tree).failed.Some? {
      FailsAtUnreadable(tree, START, {});
    }
  }

  lemma {:induction false} PathIsRead(tree: Tree, read: set<File>, p: seq<File>)
    requires ROOT in read && Path(tree, p)
    requires forall a, b | a in read && Edge(tree, a, b) :: b in read
    ensures p[|p| - 1] in read
    decreases |p|
  {
    if |p| > 1 {
      PathIsRead(tree, read, p[..|p| - 1]);
      assert Edge(tree, p[|p| - 2], p[|p| - 1]);
    }
  }

  lemma {:induction false} CutIsReachable(tree: Tree, stack: Stack, visited: set<File>, b: File)
    requires Grounded(tree, stack, visited) && b in Scan(tree, stack, visited).cut
    ensures Reachable(tree, b)
    decreases |tree.Keys - visited|, |stack|
  {
    var (rel, depth) := stack[|stack| - 1];
    var rest := stack[..|stack| - 1];
    NextGrounded(tree, stack, visited);
    if rel in visited {
      CutIsReachable(tree, rest, visited, b);
    } else {
      Smaller(tree.Keys, visited, rel);
      if b in CutAt(tree, rel, depth) {
        assert GroundedEntry(tree, stack[|stack| - 1], visited);
        var p :| GroundedBy(tree, p, (rel, depth), visited);
        PushGrounded(tree, rel, depth, visited, p, b);
        assert PathTo(tree, p + [b], b);
      } else {
        CutIsReachable(tree, rest + Pushed(tree, rel, depth), visited + {rel}, b);
      }
    }
  }

  /** The whole closure is read exactly when everything the depth cap cut is read anyway. */
  lemma CompleteExactly(tree: Tree)
    requires ScanTree(tree).failed.None?
    ensures var o := ScanTree(tree);
            (forall f | Reachable(tree, f) :: f in o.files) <==> (forall b | b in o.cut :: b in o.files)
  {
    var o := ScanTree(tree);
    StartGrounded(tree);
    if forall b | b in o.cut :: b in o.files {
      assert (ROOT, 0) in START && OnStack(START, ROOT);
      StackIsRead(tree, START, {}, ROOT);
      var read := set f | f in o.files;
      forall a, b | a in read && Edge(tree, a, b)
        ensures b in read
      {
        ImportIsAccounted(tree, START, {}, a, b);
      }
      forall f | Reachable(tree, f)
        ensures f in o.files
      {
        var p :| PathTo(tree, p, f);
        PathIsRead(tree, read, p);
      }
    }
    forall b | b in o.cut
      ensures Reachable(tree, b)
    {
      CutIsReachable(tree, START, {}, b);
    }
  }

  /** A tree without a simple chain of six imports is read completely. */
  lemma ShallowTreeComplete(tree: Tree)
    requires ScanTree(tree).failed.None?
    requires forall p :: SimplePath(tree, p) ==> |p| <= IMPORT_MAX_DEPTH + 1
    ensures forall f | Reachable(tree, f) :: f in ScanTree(tree).files
  {
    StartGrounded(tree);
    forall b | b in ScanTree(tree).cut
      ensures b in ScanTree(tree).files
    {
      CutEndsLongPath(tree, START, {}, b);
    }
    CompleteExactly(tree);
  }

  // ---- The cap can lose a near file ----

  /**
   * The root imports A and then B; B starts a chain B, C, D, E, X, and A imports X, which imports Y.
   * The chain is followed first, X is read at depth five, and Y is lost though it is three imports away.
   */
  const DEEP_BEFORE_NEAR: Tree := map[
    ROOT := [Import(1, RepoLocal("A")), Import(2, RepoLocal("B"))],
    "A" := [Import(1, RepoLocal("X"))],
    "B" := [Import(1, RepoLocal("C"))],
    "C" := [Import(1, RepoLocal("D"))],
    "D" := [Import(1, RepoLocal("E"))],
    "E" := [Import(1, RepoLocal("X"))],
    "X" := [Import(1, RepoLocal("Y"))],
    "Y" := [Import(1, Knowledge)]]

  lemma OneImport(f: File, n: nat, depth: nat)
    ensures Queued([Import(n, RepoLocal(f))], depth) == [(f, depth)]
    ensures Members([Import(n, RepoLocal(f))]) == {f}
  {
    var imports := [Import(n, RepoLocal(f))];
    assert imports[0].target.member == f;
  }

  /** Past the chain only A is left, and X is not read again. */
  lemma AfterChain()
    ensures Scan(DEEP_BEFORE_NEAR, [("A", 1)], {ROOT, "B", "C", "D", "E", "X"}) == Outcome(["A"], {}, None)
  {
    var t, visited := DEEP_BEFORE_NEAR, {ROOT, "B", "C", "D", "E", "X"};
    Visit(t, [], "A", 1, visited);
    OneImport("X", 1, 2);
    Visit(t, [], "X", 2, visited + {"A"});
  }

  /** At depth five the imports of X are cut. */
  lemma AtTheCap()
    ensures Scan(DEEP_BEFORE_NEAR, [("A", 1), ("X", 5)], {ROOT, "B", "C", "D", "E"}) == Outcome(["X", "A"], {"Y"}, None)
  {
    AfterChain();
    Visit(DEEP_BEFORE_NEAR, [("A", 1)], "X", 5, {ROOT, "B", "C", "D", "E"});
    assert DEEP_BEFORE_NEAR["X"] == [Import(1, RepoLocal("Y"))];
    EdgeIsMember(DEEP_BEFORE_NEAR, "X", "Y");
    assert {ROOT, "B", "C", "D", "E"} + {"X"} == {ROOT, "B", "C", "D", "E", "X"};
    assert [("A", 1)] + [] == [("A", 1)];
    assert [("A", 1)] + [("X", 5)] == [("A", 1), ("X", 5)];
    OneImport("Y", 1, 6);
  }

  /** One link of the chain. */
  lemma Link(rel: File, depth: nat, visited: set<File>, next: File, below: Outcome)
    requires rel in DEEP_BEFORE_NEAR && rel !in visited && depth < IMPORT_MAX_DEPTH
    requires DEEP_BEFORE_NEAR[rel] == [Import(1, RepoLocal(next))]
    requires Scan(DEEP_BEFORE_NEAR, [("A", 1), (next, depth + 1)], visited + {rel}) == below
    ensures Scan(DEEP_BEFORE_NEAR, [("A", 1), (rel, depth)], visited) ==
            Outcome([rel] + below.files, below.cut, below.failed)
  {
    Visit(DEEP_BEFORE_NEAR, [("A", 1)], rel, depth, visited);
    OneImport(next, 1, depth + 1);
    assert [("A", 1)] + [(rel, depth)] == [("A", 1), (rel, depth)];
    assert [("A", 1)] + [(next, depth + 1)] == [("A", 1), (next, depth + 1)];
    assert {} + below.cut == below.cut;
  }

  lemma ChainTail()
    ensures Scan(DEEP_BEFORE_NEAR, [("A", 1), ("D", 3)], {ROOT, "B", "C"}) ==
            Outcome(["D", "E", "X", "A"], {"Y"}, None)
  {
    AtTheCap();
    assert {ROOT, "B", "C", "D"} + {"E"} == {ROOT, "B", "C", "D", "E"};
    Link("E", 4, {ROOT, "B", "C", "D"}, "X", Outcome(["X", "A"], {"Y"}, None));
    assert {ROOT, "B", "C"} + {"D"} == {ROOT, "B", "C", "D"};
    Link("D", 3, {ROOT, "B", "C"}, "E", Outcome(["E", "X", "A"], {"Y"}, None));
  }

  lemma TheChain()
    ensures Scan(DEEP_BEFORE_NEAR, [("A", 1), ("B", 1)], {ROOT}) ==
            Outcome(["B", "C", "D", "E", "X", "A"], {"Y"}, None)
  {
    ChainTail();
    assert {ROOT, "B"} + {"C"} == {ROOT, "B", "C"};
    Link("C", 2, {ROOT, "B"}, "D", Outcome(["D", "E", "X", "A"], {"Y"}, None));
    assert {ROOT} + {"B"} == {ROOT, "B"};
    Link("B", 1, {ROOT}, "C", Outcome(["C", "D", "E", "X", "A"], {"Y"}, None));
  }

  lemma RootQueue()
    ensures Queued(DEEP_BEFORE_NEAR[ROOT], 1) == [("A", 1), ("B", 1)]
  {
    var imports := DEEP_BEFORE_NEAR[ROOT];
    assert imports[..1] == [Import(1, RepoLocal("A"))];
    OneImport("A", 1, 1);
  }

  lemma NearFileLost()
    ensures ScanTree(DEEP_BEFORE_NEAR) == Outcome([ROOT, "B", "C", "D", "E", "X", "A"], {"Y"}, None)
    ensures exists p :: PathTo(DEEP_BEFORE_NEAR, p, "Y") && |p| == 4
  {
    NearPath();
    FromRoot();
  }

  lemma RootVisit()
    ensures var below := Scan(DEEP_BEFORE_NEAR, [("A", 1), ("B", 1)], {ROOT});
            ScanTree(DEEP_BEFORE_NEAR) == Outcome([ROOT] + below.files, {} + below.cut, below.failed)
  {
    RootQueue();
    Visit(DEEP_BEFORE_NEAR, [], ROOT, 0, {});
    assert [] + [(ROOT, 0)] == START && {} + {ROOT} == {ROOT};
    assert [] + [("A", 1), ("B", 1)] == [("A", 1), ("B", 1)];
  }

  lemma FromRoot()
    ensures ScanTree(DEEP_BEFORE_NEAR) == Outcome([ROOT, "B", "C", "D", "E", "X", "A"], {"Y"}, None)
  {
    TheChain();
    RootVisit();
    assert [ROOT] + ["B", "C", "D", "E", "X", "A"] == [ROOT, "B", "C", "D", "E", "X", "A"];
    assert {} + {"Y"} == {"Y"};
  }

  lemma NearPath()
    ensures PathTo(DEEP_BEFORE_NEAR, [ROOT, "A", "X", "Y"], "Y")
  {
    var t: Tree := DEEP_BEFORE_NEAR;
    assert t[ROOT][0].target == RepoLocal("A") && Edge(t, ROOT, "A");
    assert t["A"][0].target == RepoLocal("X") && Edge(t, "A", "X");
    assert t["X"][0].target == RepoLocal("Y") && Edge(t, "X", "Y");
  }

  /** One turn of the traversal. */
  lemma Visit(tree: Tree, rest: Stack, rel: File, depth: nat, visited: set<File>)
    ensures rel in visited ==> Scan(tree, rest + [(rel, depth)], visited) == Scan(tree, rest, visited)
    ensures rel !in visited && rel in tree ==>
              var below := Scan(tree, rest + Pushed(tree, rel, depth), visited + {rel});
              Scan(tree, rest + [(rel, depth)], visited) ==
              Outcome([rel] + below.files, CutAt(tree, rel, depth) + below.cut, below.failed)
  {
    assert (rest + [(rel, depth)])[..|rest|] == rest;
  }

  // ---- Findings ----

  /** The knowledge imports of one file, in line order. */
  function KnowledgeImports(file: File, imports: seq<Import>): seq<Finding> {
    if imports == [] then []
    else
      var last := imports[|imports| - 1];
      KnowledgeImports(file, imports[..|imports| - 1]) +
      (if last.target.Knowledge? then [Finding(file, last.line)] else [])
  }

  function FindingsOf(tree: Tree, files: seq<File>): seq<Finding> {
    if files == [] then []
    else
      var last := files[|files| - 1];
      FindingsOf(tree, files[..|files| - 1]) + (if last in tree then KnowledgeImports(last, tree[last]) else [])
  }

  ghost predicate ImportsKnowledge(tree: Tree, f: File) {
    f in tree && exists i | 0 <= i < |tree[f]| :: tree[f][i].target == Knowledge
  }

  lemma {:induction false} KnowledgeFound(file: File, imports: seq<Import>)
    ensures KnowledgeImports(file, imports) == [] <==>
            forall i | 0 <= i < |imports| :: imports[i].target != Knowledge
  {
    if imports != [] {
      KnowledgeFound(file, imports[..|imports| - 1]);
    }
  }

  lemma {:induction false} NoFindingsExactly(tree: Tree, files: seq<File>)
    ensures FindingsOf(tree, files) == [] <==> forall f | f in files :: !ImportsKnowledge(tree, f)
  {
    if files != [] {
      var before, last := files[..|files| - 1], files[|files| - 1];
      NoFindingsExactly(tree, before);
      assert files == before + [last];
      assert last in files;
      if last in tree {
        KnowledgeFound(last, tree[last]);
        assert ImportsKnowledge(tree, last) <==> KnowledgeImports(last, tree[last]) != [];
      }
    }
  }

  /** Line `n` of the file holds an import of knowledge content. */
  ghost predicate KnowledgeOn(imports: seq<Import>, n: nat) {
    exists i | 0 <= i < |imports| :: imports[i].target == Knowledge && imports[i].line == n
  }

  lemma {:induction false} KnowledgeLines(file: File, imports: seq<Import>, f: Finding)
    ensures f in KnowledgeImports(file, imports) <==> f.file == file && KnowledgeOn(imports, f.line)
  {
    if imports != [] {
      var before, last := imports[..|imports| - 1], imports[|imports| - 1];
      KnowledgeLines(file, before, f);
      assert imports == before + [last];
      assert KnowledgeOn(imports, f.line) <==>
             KnowledgeOn(before, f.line) || (last.target == Knowledge && last.line == f.line);
    }
  }

  /** A finding names exactly a file that was read and a line of it that imports knowledge content. */
  lemma {:induction false} FindingsExactly(tree: Tree, files: seq<File>, f: Finding)
    ensures f in FindingsOf(tree, files) <==>
            f.file in files && f.file in tree && KnowledgeOn(tree[f.file], f.line)
  {
    if files != [] {
      var before, last := files[..|files| - 1], files[|files| - 1];
      FindingsExactly(tree, before, f);
      assert files == before + [last];
      if last in tree {
        KnowledgeLines(last, tree[last], f);
      }
    }
  }

  /** When the read set is the whole closure, no finding means that no reachable file imports knowledge content. */
  lemma CleanExactly(tree: Tree)
    requires var o := ScanTree(tree); o.failed.None? && forall b | b in o.cut :: b in o.files
    ensures FindingsOf(tree, ScanTree(tree).files) == [] <==>
            forall f | Reachable(tree, f) :: !ImportsKnowledge(tree, f)
  {
    CompleteExactly(tree);
    ReadsAreNear(tree);
    NoFindingsExactly(tree, ScanTree(tree).files);
    forall f | f in ScanTree(tree).files
      ensures Reachable(tree, f)
    {
      var p :| PathTo(tree, p, f) && |p| <= IMPORT_MAX_DEPTH + 1;
    }
  }

  // ---- The loop ----

  /** Reads one file: its knowledge imports become findings, its members go on the stack below the cap. */
  method ReadFile(rel: File, imports: seq<Import>, depth: nat) returns (findings: seq<Finding>, pushed: Stack)
    ensures findings == KnowledgeImports(rel, imports)
    ensures pushed == if depth < IMPORT_MAX_DEPTH then Queued(imports, depth + 1) else []
  {
    findings, pushed := [], [];
    for i := 0 to |imports|
      invariant findings == KnowledgeImports(rel, imports[..i])
      invariant pushed == if depth < IMPORT_MAX_DEPTH then Queued(imports[..i], depth + 1) else []
    {
      assert imports[..i + 1][..i] == imports[..i];
      match imports[i].target {
        case Knowledge => findings := findings + [Finding(rel, imports[i].line)];
        case RepoLocal(member) =>
          if depth < IMPORT_MAX_DEPTH {
            pushed := pushed + [(member, depth + 1)];
          }
        case Outside =>
      }
    }
    assert imports[..|imports|] == imports;
  }

  lemma OneMoreFile(tree: Tree, files: seq<File>, rel: File)
    requires rel in tree
    ensures FindingsOf(tree, files + [rel]) == FindingsOf(tree, files) + KnowledgeImports(rel, tree[rel])
  {
    assert (files + [rel])[..|files|] == files;
  }

  lemma AppendThenRest(files: seq<File>, rel: File, below: seq<File>)
    ensures files + ([rel] + below) == files + [rel] + below
  {
  }

  method ScanImportClosure(tree: Tree) returns (findings: seq<Finding>, failed: Option<File>, ghost files: seq<File>)
    ensures files == ScanTree(tree).files && failed == ScanTree(tree).failed
    ensures findings == FindingsOf(tree, files)
  {
    findings, failed, files := [], None, [];
    var visited: set<File> := {};
    var stack: Stack := [(ROOT, 0)];
    while stack != []
      invariant files + Scan(tree, stack, visited).files == ScanTree(tree).files
      invariant Scan(tree, stack, visited).failed == ScanTree(tree).failed
      invariant findings == FindingsOf(tree, files)
      decreases |tree.Keys - visited|, |stack|
    {
      var (rel, depth) := stack[|stack| - 1];
      stack := stack[..|stack| - 1];
      if rel in visited {
        continue;
      }
      if rel !in tree {
        failed := Some(rel);
        return;
      }
      Smaller(tree.Keys, visited, rel);
      visited := visited + {rel};
      var found, pushed := ReadFile(rel, tree[rel], depth);
      OneMoreFile(tree, files, rel);
      AppendThenRest(files, rel, Scan(tree, stack + pushed, visited).files);
      findings, stack, files := findings + found, stack + pushed, files + [rel];
    }
  }
}
