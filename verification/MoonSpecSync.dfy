/**
  Vendoring the MoonSpec projection: the writer that changes the repository's file tree and
  the independent drift checker that judges the result.
 */
module MoonSpecSync {
  import opened Outcomes

  /** Parts of a path below the repository root. */
  type Path = seq<string>

  type Bytes = seq<bv8>

  /** `inside` says whether a symlink resolves to something below the repository root. */
  datatype Node = File(bytes: Bytes, mode: bv12) | Symlink(inside: bool) | Directory

  type Nodes = map<Path, Node>

  /** A planned file with the bytes and permission bits of its bundle source. */
  datatype Planned = Planned(source: Bytes, sourceMode: bv12, target: Path)

  datatype Ownership = Full | SkillDirs | FilePrefix

  /** `root` holds the parts of the repository root itself. */
  datatype Plan = Plan(
    root: Path,
    files: seq<Planned>,
    directories: seq<(Path, Ownership)>,
    patterns: seq<string>,
    skillPrefix: string,
    commandFilePrefix: string
  )

  /** Glob matching is not modelled: which patterns are valid, and which paths a pattern matches. */
  datatype Glob = Glob(valid: string -> bool, matches: (string, Path) -> bool)

  datatype SyncError = RefusesDirectory(target: Path) | ParentNotDirectory(target: Path) | InvalidPattern | EscapingMatch

  const EXECUTABLE: bv12 := 0x49

  predicate HasShSuffix(target: Path) {
    target != [] &&
    var name := target[|target| - 1];
    |name| > 3 && name[|name| - 3..] == ".sh"
  }

  function ExpectedMode(plan: Plan, item: Planned): bv12 {
    var parts := plan.root + item.target;
    if HasShSuffix(item.target) && ".specify" in parts && "scripts" in parts && "bash" in parts
    then item.sourceMode | EXECUTABLE else item.sourceMode
  }

  /** The mode is the source's, with all three execute bits for a shell script of the specify kit. */
  lemma ExpectedModeExactly(plan: Plan, item: Planned)
    ensures var parts := plan.root + item.target;
      var script := item.target != []
        && (exists stem :: stem != "" && item.target[|item.target| - 1] == stem + ".sh")
        && ".specify" in parts && "scripts" in parts && "bash" in parts;
      ExpectedMode(plan, item) == if script then item.sourceMode | 0x40 | 0x08 | 0x01 else item.sourceMode
  {
    ExecuteBits(item.sourceMode);
    if HasShSuffix(item.target) {
      var name := item.target[|item.target| - 1];
      assert name == name[..|name| - 3] + ".sh";
    }
  }

  lemma ExecuteBits(mode: bv12)
    ensures mode | EXECUTABLE == mode | 0x40 | 0x08 | 0x01
  {
  }

  /** What the target of a planned file must be. */
  function Vendored(plan: Plan, item: Planned): Node {
    File(item.source, ExpectedMode(plan, item))
  }

  predicate IsDirectory(nodes: Nodes, p: Path) {
    p == [] || (p in nodes && nodes[p].Directory?)
  }

  predicate TargetMatches(plan: Plan, nodes: Nodes, item: Planned) {
    item.target != [] && item.target in nodes && nodes[item.target] == Vendored(plan, item)
  }

  function Targets(plan: Plan): set<Path> {
    set i | 0 <= i < |plan.files| :: plan.files[i].target
  }

  predicate Managed(plan: Plan, scope: Path, ownership: Ownership, p: Path)
    requires scope < p
  {
    var relative := p[|scope|..];
    match ownership
    case Full => true
    case SkillDirs => plan.skillPrefix <= relative[0]
    case FilePrefix => |relative| == 1 && plan.commandFilePrefix <= relative[0]
  }

  /** A file that mapping `d` owns although nothing plans it. */
  predicate StaleInScope(plan: Plan, nodes: Nodes, d: nat, p: Path)
    requires d < |plan.directories|
  {
    var (scope, ownership) := plan.directories[d];
    && p in nodes && !nodes[p].Directory?
    && IsDirectory(nodes, scope) && scope < p
    && p !in Targets(plan) && Managed(plan, scope, ownership, p)
  }

  predicate StaleByPattern(plan: Plan, glob: Glob, nodes: Nodes, k: nat, p: Path)
    requires k < |plan.patterns|
  {
    p in nodes && !nodes[p].Directory? && glob.matches(plan.patterns[k], p)
  }

  predicate ScopeStale(plan: Plan, nodes: Nodes, n: nat, p: Path)
    requires n <= |plan.directories|
  {
    exists d :: 0 <= d < n && StaleInScope(plan, nodes, d, p)
  }

  predicate PatternStale(plan: Plan, glob: Glob, nodes: Nodes, n: nat, p: Path)
    requires n <= |plan.patterns|
  {
    exists k :: 0 <= k < n && StaleByPattern(plan, glob, nodes, k, p)
  }

  predicate Stale(plan: Plan, glob: Glob, nodes: Nodes, p: Path) {
    ScopeStale(plan, nodes, |plan.directories|, p) || PatternStale(plan, glob, nodes, |plan.patterns|, p)
  }

  /** Nothing in the plan speaks of this path. */
  predicate Foreign(plan: Plan, glob: Glob, p: Path) {
    && p !in Targets(plan)
    && (forall d :: 0 <= d < |plan.directories| && plan.directories[d].0 < p ==> !Managed(plan, plan.directories[d].0, plan.directories[d].1, p))
    && (forall k :: 0 <= k < |plan.patterns| ==> !glob.matches(plan.patterns[k], p))
  }

  /** The foreign files of a tree are in another one with the same bytes and mode. */
  ghost predicate KeepsForeign(plan: Plan, glob: Glob, before: Nodes, after: Nodes) {
    forall p :: p in before && !before[p].Directory? && Foreign(plan, glob, p) ==> p in after && after[p] == before[p]
  }

  /** The part of a path that stands right below a scope above it. */
  function FirstBelow(scope: Path, p: Path): string
    requires scope < p
  {
    p[|scope|]
  }

  /** Mapping `d` lies above the path and its ownership rule takes the path in. */
  predicate Claims(plan: Plan, d: nat, p: Path)
    requires d < |plan.directories|
  {
    var scope := plan.directories[d].0;
    && scope < p
    && match plan.directories[d].1
       case Full => true
       case SkillDirs => plan.skillPrefix <= FirstBelow(scope, p)
       case FilePrefix => |p| == |scope| + 1 && plan.commandFilePrefix <= FirstBelow(scope, p)
  }

  /**
    The plan leaves a path alone: it plans no such file, no pattern matches it, and every mapping
    above it is one for prefixed skills or commands that this path is not.
   */
  predicate OutOfReach(plan: Plan, glob: Glob, p: Path) {
    && (forall i :: 0 <= i < |plan.files| ==> plan.files[i].target != p)
    && (forall k :: 0 <= k < |plan.patterns| ==> !glob.matches(plan.patterns[k], p))
    && (forall d :: 0 <= d < |plan.directories| && plan.directories[d].0 < p ==>
         var scope := plan.directories[d].0;
         || (plan.directories[d].1 == SkillDirs && !(plan.skillPrefix <= FirstBelow(scope, p)))
         || (plan.directories[d].1 == FilePrefix && (|p| > |scope| + 1 || !(plan.commandFilePrefix <= FirstBelow(scope, p)))))
  }

  lemma OutOfReachIsForeign(plan: Plan, glob: Glob, p: Path)
    requires OutOfReach(plan, glob, p)
    ensures Foreign(plan, glob, p)
  {
  }

  /** Every file the plan leaves alone is in another tree with the same bytes and mode. */
  ghost predicate KeepsOutOfReach(plan: Plan, glob: Glob, before: Nodes, after: Nodes) {
    forall p :: p in before && !before[p].Directory? && OutOfReach(plan, glob, p) ==> p in after && after[p] == before[p]
  }

  lemma KeepsWhatIsOutOfReach(plan: Plan, glob: Glob, before: Nodes, after: Nodes)
    requires KeepsForeign(plan, glob, before, after)
    ensures KeepsOutOfReach(plan, glob, before, after)
  {
    forall p | p in before && !before[p].Directory? && OutOfReach(plan, glob, p)
      ensures p in after && after[p] == before[p]
    {
      OutOfReachIsForeign(plan, glob, p);
    }
  }

  /** No unplanned file is left that a mapping onto a directory of the first tree claims. */
  ghost predicate ClaimedAreGone(plan: Plan, before: Nodes, after: Nodes) {
    forall p, d ::
      && p in before && !before[p].Directory? && (forall i :: 0 <= i < |plan.files| ==> plan.files[i].target != p)
      && 0 <= d < |plan.directories| && Claims(plan, d, p)
      && (plan.directories[d].0 == [] || (plan.directories[d].0 in before && before[plan.directories[d].0].Directory?))
      ==> p !in after
  }

  // ------------------------------------------------------------- the tree

  class FileTree {
    var nodes: Nodes

    constructor (nodes: Nodes)
      ensures this.nodes == nodes
    {
      this.nodes := nodes;
    }
  }

  // ------------------------------------------------------ writing one file

  /** A parent directory of the target that is occupied by something else. */
  predicate ParentBlocked(nodes: Nodes, target: Path) {
    exists n :: 0 < n < |target| && target[..n] in nodes && !nodes[target[..n]].Directory?
  }

  function WithParents(nodes: Nodes, target: Path): Nodes {
    nodes + map n | 0 < n < |target| && target[..n] !in nodes :: target[..n] := Directory
  }

  /** The tree after one turn of the write loop. */
  function WriteItem(plan: Plan, nodes: Nodes, item: Planned): Result<Nodes, SyncError> {
    if IsDirectory(nodes, item.target) then Err(RefusesDirectory(item.target))
    else if TargetMatches(plan, nodes, item) then Ok(nodes)
    else if ParentBlocked(nodes, item.target) then Err(ParentNotDirectory(item.target))
    else Ok(WithParents(nodes, item.target)[item.target := Vendored(plan, item)])
  }

  /** The tree after the first `n` turns. */
  function WriteItems(plan: Plan, nodes: Nodes, n: nat): Result<Nodes, SyncError>
    requires n <= |plan.files|
  {
    if n == 0 then Ok(nodes) else
      var earlier := WriteItems(plan, nodes, n - 1);
      if earlier.Err? then earlier else WriteItem(plan, earlier.value, plan.files[n - 1])
  }

  function WrittenTargets(plan: Plan, nodes: Nodes, n: nat): seq<Path>
    requires n <= |plan.files| && WriteItems(plan, nodes, n).Ok?
  {
    if n == 0 then [] else
      var earlier := WriteItems(plan, nodes, n - 1).value;
      WrittenTargets(plan, nodes, n - 1)
      + (if TargetMatches(plan, earlier, plan.files[n - 1]) then [] else [plan.files[n - 1].target])
  }

  /** The last of the first `n` planned files with this target. */
  function LastFor(plan: Plan, n: nat, p: Path): Option<nat>
    requires n <= |plan.files|
  {
    if n == 0 then None else if plan.files[n - 1].target == p then Some(n - 1) else LastFor(plan, n - 1, p)
  }

  lemma {:induction false} LastForTarget(plan: Plan, n: nat, p: Path)
    requires n <= |plan.files|
    ensures LastFor(plan, n, p).Some? ==> LastFor(plan, n, p).value < n && plan.files[LastFor(plan, n, p).value].target == p
    ensures LastFor(plan, n, p).None? ==> forall i :: 0 <= i < n ==> plan.files[i].target != p
  {
    if n > 0 {
      LastForTarget(plan, n - 1, p);
    }
  }

  lemma WriteItemEffect(plan: Plan, nodes: Nodes, item: Planned, p: Path)
    requires WriteItem(plan, nodes, item).Ok?
    ensures var after := WriteItem(plan, nodes, item).value;
      if p == item.target then p in after && after[p] == Vendored(plan, item)
      else if p in nodes then p in after && after[p] == nodes[p]
      else p in after ==> after[p].Directory?
  {
  }

  /** A file that is written gets all its parent directories. */
  lemma ParentsAreMade(plan: Plan, nodes: Nodes, item: Planned, n: nat)
    requires WriteItem(plan, nodes, item).Ok? && !TargetMatches(plan, nodes, item) && 0 < n < |item.target|
    ensures var after := WriteItem(plan, nodes, item).value;
      item.target[..n] in after && after[item.target[..n]].Directory?
  {
    hide TargetMatches;
    var parent := item.target[..n];
    if parent in nodes {
      assert nodes[parent].Directory?;
    } else {
      assert parent in WithParents(nodes, item.target);
    }
  }

  /** After the write loop a target holds what its last planned file asks for; elsewhere only missing directories appeared. */
  lemma {:induction false} WriteEffect(plan: Plan, nodes: Nodes, n: nat, p: Path)
    requires n <= |plan.files| && WriteItems(plan, nodes, n).Ok?
    ensures var after := WriteItems(plan, nodes, n).value;
      match LastFor(plan, n, p)
      case Some(i) => i < |plan.files| && p in after && after[p] == Vendored(plan, plan.files[i])
      case None => if p in nodes then p in after && after[p] == nodes[p] else p in after ==> after[p].Directory?
  {
    hide WriteItem;
    if n > 0 {
      WriteEffect(plan, nodes, n - 1, p);
      WriteItemEffect(plan, WriteItems(plan, nodes, n - 1).value, plan.files[n - 1], p);
    }
  }

  lemma MatchingTargetIsLeft(plan: Plan, nodes: Nodes, item: Planned)
    requires TargetMatches(plan, nodes, item)
    ensures WriteItem(plan, nodes, item) == Ok(nodes)
  {
  }

  lemma {:induction false} NothingToWrite(plan: Plan, nodes: Nodes, n: nat)
    requires n <= |plan.files|
    requires forall i :: 0 <= i < |plan.files| ==> TargetMatches(plan, nodes, plan.files[i])
    ensures WriteItems(plan, nodes, n) == Ok(nodes) && WrittenTargets(plan, nodes, n) == []
  {
    hide WriteItem;
    if n > 0 {
      NothingToWrite(plan, nodes, n - 1);
      MatchingTargetIsLeft(plan, nodes, plan.files[n - 1]);
    }
  }

  /** One turn of the write loop; the result says whether the target was rewritten. */
  method WriteFile(plan: Plan, tree: FileTree, item: Planned) returns (r: Result<bool, SyncError>)
    modifies tree
    ensures var outcome := WriteItem(plan, old(tree.nodes), item);
      if outcome.Err? then r == Err(outcome.error) && tree.nodes == old(tree.nodes)
      else tree.nodes == outcome.value && r == Ok(!TargetMatches(plan, old(tree.nodes), item))
  {
    if IsDirectory(tree.nodes, item.target) {
      return Err(RefusesDirectory(item.target));
    }
    if TargetMatches(plan, tree.nodes, item) {
      return Ok(false);
    }
    if ParentBlocked(tree.nodes, item.target) {
      return Err(ParentNotDirectory(item.target));
    }
    tree.nodes := WithParents(tree.nodes, item.target);
    tree.nodes := tree.nodes - {item.target};
    tree.nodes := tree.nodes[item.target := File(item.source, item.sourceMode)];
    tree.nodes := tree.nodes[item.target := File(item.source, ExpectedMode(plan, item))];
    r := Ok(true);
  }

  method WriteFiles(plan: Plan, tree: FileTree) returns (r: Result<seq<Path>, SyncError>)
    modifies tree
    ensures WriteItems(plan, old(tree.nodes), |plan.files|).Ok? ==>
      && tree.nodes == WriteItems(plan, old(tree.nodes), |plan.files|).value
      && r == Ok(WrittenTargets(plan, old(tree.nodes), |plan.files|))
    ensures WriteItems(plan, old(tree.nodes), |plan.files|).Err? ==>
      && r == Err(WriteItems(plan, old(tree.nodes), |plan.files|).error)
      && exists n :: 0 <= n < |plan.files| && WriteItems(plan, old(tree.nodes), n) == Ok(tree.nodes)
  {
    hide WriteItem;
    ghost var before := tree.nodes;
    var written: seq<Path> := [];
    for n := 0 to |plan.files|
      invariant WriteItems(plan, before, n) == Ok(tree.nodes)
      invariant written == WrittenTargets(plan, before, n)
    {
      var item := plan.files[n];
      var turn := WriteFile(plan, tree, item);
      if turn.Err? {
        FailureIsFinal(plan, before, n + 1, |plan.files|);
        return Err(turn.error);
      }
      if turn.value {
        written := written + [item.target];
      }
    }
    r := Ok(written);
  }

  lemma {:induction false} FailureIsFinal(plan: Plan, nodes: Nodes, n: nat, m: nat)
    requires n <= m <= |plan.files| && WriteItems(plan, nodes, n).Err?
    ensures WriteItems(plan, nodes, m) == WriteItems(plan, nodes, n)
  {
    hide WriteItem;
    if n < m {
      FailureIsFinal(plan, nodes, n, m - 1);
    }
  }

  // --------------------------------------------------- removing stale files

  /** The list holds every member once and nothing else. */
  ghost predicate Enumerates(list: seq<Path>, members: set<Path>) {
    && (forall i, j :: 0 <= i < j < |list| ==> list[i] != list[j])
    && (forall p :: p in list <==> p in members)
  }

  lemma FirstMember(list: seq<Path>, members: set<Path>)
    requires Enumerates(list, members)
    ensures list != [] ==> list[0] in members
  {
    if list != [] {
      assert list[0] in list;
    }
  }

  lemma EnumeratesConcat(a: seq<Path>, b: seq<Path>, s: set<Path>, t: set<Path>)
    requires Enumerates(a, s) && Enumerates(b, t) && s !! t
    ensures Enumerates(a + b, s + t)
  {
    forall i, j | 0 <= i < |a| && 0 <= j < |b|
      ensures a[i] != b[j]
    {
      assert a[i] in s && b[j] in t;
    }
  }

  method UnlinkAll(tree: FileTree, doomed: set<Path>) returns (removed: seq<Path>)
    modifies tree
    ensures tree.nodes == old(tree.nodes) - doomed
    ensures Enumerates(removed, doomed)
  {
    removed := [];
    var remaining := doomed;
    assert tree.nodes == old(tree.nodes) - (doomed - remaining);
    while remaining != {}
      invariant remaining <= doomed
      invariant tree.nodes == old(tree.nodes) - (doomed - remaining)
      invariant Enumerates(removed, doomed - remaining)
      decreases remaining
    {
      var p :| p in remaining;
      remaining := remaining - {p};
      removed := removed + [p];
      tree.nodes := tree.nodes - {p};
    }
  }

  /** Unlinks the matches one by one and raises at the first that leaves the repository, keeping what is already gone. */
  method UnlinkInside(tree: FileTree, matched: set<Path>) returns (r: Result<seq<Path>, SyncError>)
    requires matched <= tree.nodes.Keys
    modifies tree
    ensures r.Err? <==> Escapes(old(tree.nodes), matched)
    ensures r.Ok? ==> tree.nodes == old(tree.nodes) - matched && Enumerates(r.value, matched)
    ensures forall p :: p in old(tree.nodes) && p !in matched ==> p in tree.nodes && tree.nodes[p] == old(tree.nodes)[p]
  {
    var removed: seq<Path> := [];
    var remaining := matched;
    assert tree.nodes == old(tree.nodes) - (matched - remaining);
    while remaining != {}
      invariant remaining <= matched
      invariant tree.nodes == old(tree.nodes) - (matched - remaining)
      invariant !Escapes(old(tree.nodes), matched - remaining)
      invariant Enumerates(removed, matched - remaining)
      decreases remaining
    {
      var p :| p in remaining;
      assert p in tree.nodes && tree.nodes[p] == old(tree.nodes)[p];
      if tree.nodes[p] == Symlink(false) {
        return Err(EscapingMatch);
      }
      remaining := remaining - {p};
      removed := removed + [p];
      tree.nodes := tree.nodes - {p};
    }
    assert matched - remaining == matched;
    r := Ok(removed);
  }

  /** The tree without what the first `n` directory mappings own but nothing plans. */
  function Swept(plan: Plan, nodes: Nodes, n: nat): Nodes
    requires n <= |plan.directories|
  {
    map p | p in nodes && !ScopeStale(plan, nodes, n, p) :: nodes[p]
  }

  function ScopeDoomed(plan: Plan, nodes: Nodes, d: nat): set<Path>
    requires d < |plan.directories|
  {
    set p | p in nodes && StaleInScope(plan, nodes, d, p)
  }

  lemma SweptStep(plan: Plan, nodes: Nodes, n: nat)
    requires n < |plan.directories|
    ensures Swept(plan, nodes, n) - ScopeDoomed(plan, Swept(plan, nodes, n), n) == Swept(plan, nodes, n + 1)
    ensures ScopeDoomed(plan, Swept(plan, nodes, n), n) == set p | p in nodes && ScopeStale(plan, nodes, n + 1, p) && !ScopeStale(plan, nodes, n, p)
  {
    var now := Swept(plan, nodes, n);
    forall p | p in nodes
      ensures ScopeStale(plan, nodes, n + 1, p) <==> ScopeStale(plan, nodes, n, p) || StaleInScope(plan, nodes, n, p)
    {
      if StaleInScope(plan, nodes, n, p) {
        assert ScopeStale(plan, nodes, n + 1, p);
      }
    }
    var scope := plan.directories[n].0;
    assert IsDirectory(now, scope) <==> IsDirectory(nodes, scope) by {
      assert scope in nodes && nodes[scope].Directory? ==> !ScopeStale(plan, nodes, n, scope);
    }
  }

  method RemoveScopeFiles(plan: Plan, tree: FileTree) returns (removed: seq<Path>)
    modifies tree
    ensures tree.nodes == Swept(plan, old(tree.nodes), |plan.directories|)
    ensures Enumerates(removed, set p | p in old(tree.nodes) && ScopeStale(plan, old(tree.nodes), |plan.directories|, p))
  {
    ghost var before := tree.nodes;
    removed := [];
    assert Swept(plan, before, 0) == before;
    for d := 0 to |plan.directories|
      invariant tree.nodes == Swept(plan, before, d)
      invariant Enumerates(removed, set p | p in before && ScopeStale(plan, before, d, p))
    {
      SweptStep(plan, before, d);
      var unlinked := UnlinkAll(tree, ScopeDoomed(plan, tree.nodes, d));
      ghost var gone := set p | p in before && ScopeStale(plan, before, d, p);
      ghost var going := ScopeDoomed(plan, Swept(plan, before, d), d);
      EnumeratesConcat(removed, unlinked, gone, going);
      assert gone + going == set p | p in before && ScopeStale(plan, before, d + 1, p);
      removed := removed + unlinked;
    }
  }

  function PatternDoomed(plan: Plan, glob: Glob, nodes: Nodes, k: nat): set<Path>
    requires k < |plan.patterns|
  {
    set p | p in nodes && StaleByPattern(plan, glob, nodes, k, p)
  }

  predicate Escapes(nodes: Nodes, matched: set<Path>) {
    exists p :: p in matched && p in nodes && nodes[p] == Symlink(false)
  }

  /** The patterns cannot all be applied to this tree: one is invalid, or matches a symlink that leaves the repository. */
  ghost predicate PatternTrouble(plan: Plan, glob: Glob, nodes: Nodes, n: nat)
    requires n <= |plan.patterns|
  {
    exists k :: 0 <= k < n && (!glob.valid(plan.patterns[k]) || Escapes(nodes, PatternDoomed(plan, glob, nodes, k)))
  }

  function PatternSwept(plan: Plan, glob: Glob, nodes: Nodes, n: nat): Nodes
    requires n <= |plan.patterns|
  {
    map p | p in nodes && !PatternStale(plan, glob, nodes, n, p) :: nodes[p]
  }

  lemma PatternStep(plan: Plan, glob: Glob, nodes: Nodes, n: nat)
    requires n < |plan.patterns| && !PatternTrouble(plan, glob, nodes, n)
    ensures var now := PatternSwept(plan, glob, nodes, n);
      && now - PatternDoomed(plan, glob, now, n) == PatternSwept(plan, glob, nodes, n + 1)
      && PatternDoomed(plan, glob, now, n) == (set p | p in nodes && PatternStale(plan, glob, nodes, n + 1, p) && !PatternStale(plan, glob, nodes, n, p))
      && (!glob.valid(plan.patterns[n]) || Escapes(now, PatternDoomed(plan, glob, now, n)) <==> PatternTrouble(plan, glob, nodes, n + 1))
  {
    var now := PatternSwept(plan, glob, nodes, n);
    forall p | p in nodes
      ensures PatternStale(plan, glob, nodes, n + 1, p) <==> PatternStale(plan, glob, nodes, n, p) || StaleByPattern(plan, glob, nodes, n, p)
    {
      if StaleByPattern(plan, glob, nodes, n, p) {
        assert PatternStale(plan, glob, nodes, n + 1, p);
      }
    }
    if Escapes(nodes, PatternDoomed(plan, glob, nodes, n)) {
      var p :| p in PatternDoomed(plan, glob, nodes, n) && nodes[p] == Symlink(false);
      assert p in PatternDoomed(plan, glob, now, n);
    }
    if PatternTrouble(plan, glob, nodes, n + 1) {
      var k :| 0 <= k < n + 1 && (!glob.valid(plan.patterns[k]) || Escapes(nodes, PatternDoomed(plan, glob, nodes, k)));
      assert k == n;
    }
  }

  /** What the first `n` patterns match. */
  ghost function PatternGone(plan: Plan, glob: Glob, nodes: Nodes, n: nat): set<Path>
    requires n <= |plan.patterns|
  {
    set p | p in nodes && PatternStale(plan, glob, nodes, n, p)
  }

  lemma GoneStep(plan: Plan, glob: Glob, nodes: Nodes, n: nat)
    requires n < |plan.patterns| && !PatternTrouble(plan, glob, nodes, n)
    ensures var going := PatternDoomed(plan, glob, PatternSwept(plan, glob, nodes, n), n);
      PatternGone(plan, glob, nodes, n) !! going && PatternGone(plan, glob, nodes, n + 1) == PatternGone(plan, glob, nodes, n) + going
  {
    PatternStep(plan, glob, nodes, n);
    hide PatternTrouble, StaleByPattern;
    forall p | p in nodes && PatternStale(plan, glob, nodes, n, p)
      ensures PatternStale(plan, glob, nodes, n + 1, p)
    {
      var k :| 0 <= k < n && StaleByPattern(plan, glob, nodes, k, p);
      assert 0 <= k < n + 1;
    }
  }

  method RemovePatternFiles(plan: Plan, glob: Glob, tree: FileTree) returns (r: Result<seq<Path>, SyncError>)
    modifies tree
    ensures r.Err? <==> PatternTrouble(plan, glob, old(tree.nodes), |plan.patterns|)
    ensures r.Ok? ==> tree.nodes == PatternSwept(plan, glob, old(tree.nodes), |plan.patterns|)
    ensures r.Ok? ==> Enumerates(r.value, PatternGone(plan, glob, old(tree.nodes), |plan.patterns|))
    ensures KeepsForeign(plan, glob, old(tree.nodes), tree.nodes)
  {
    ghost var before := tree.nodes;
    var removed: seq<Path> := [];
    assert PatternSwept(plan, glob, before, 0) == before;
    assert PatternGone(plan, glob, before, 0) == {};
    hide PatternTrouble, PatternSwept, PatternGone, KeepsForeign, Escapes;
    for k := 0 to |plan.patterns|
      invariant !PatternTrouble(plan, glob, before, k)
      invariant tree.nodes == PatternSwept(plan, glob, before, k)
      invariant Enumerates(removed, PatternGone(plan, glob, before, k))
      invariant KeepsForeign(plan, glob, before, tree.nodes)
    {
      PatternStep(plan, glob, before, k);
      GoneStep(plan, glob, before, k);
      ghost var now := tree.nodes;
      if !glob.valid(plan.patterns[k]) {
        TroubleGrows(plan, glob, before, k + 1, |plan.patterns|);
        return Err(InvalidPattern);
      }
      var matched := PatternDoomed(plan, glob, tree.nodes, k);
      var unlinked := UnlinkInside(tree, matched);
      UnlinkingKeepsForeign(plan, glob, before, now, tree.nodes, k);
      if unlinked.Err? {
        TroubleGrows(plan, glob, before, k + 1, |plan.patterns|);
        return Err(unlinked.error);
      }
      EnumeratesConcat(removed, unlinked.value, PatternGone(plan, glob, before, k), matched);
      removed := removed + unlinked.value;
    }
    r := Ok(removed);
  }

  lemma UnlinkingKeepsForeign(plan: Plan, glob: Glob, before: Nodes, now: Nodes, after: Nodes, k: nat)
    requires k < |plan.patterns| && KeepsForeign(plan, glob, before, now)
    requires forall p :: p in now && p !in PatternDoomed(plan, glob, now, k) ==> p in after && after[p] == now[p]
    ensures KeepsForeign(plan, glob, before, after)
  {
    forall p | p in before && !before[p].Directory? && Foreign(plan, glob, p)
      ensures p in after && after[p] == before[p]
    {
      assert !glob.matches(plan.patterns[k], p);
    }
  }

  lemma TroubleGrows(plan: Plan, glob: Glob, nodes: Nodes, n: nat, m: nat)
    requires n <= m <= |plan.patterns| && PatternTrouble(plan, glob, nodes, n)
    ensures PatternTrouble(plan, glob, nodes, m)
  {
    var k :| 0 <= k < n && (!glob.valid(plan.patterns[k]) || Escapes(nodes, PatternDoomed(plan, glob, nodes, k)));
    assert 0 <= k < m;
  }

  // ------------------------------------------------ pruning empty directories

  ghost predicate HasFileBelow(nodes: Nodes, p: Path) {
    exists q :: q in nodes && p < q && !nodes[q].Directory?
  }

  predicate HasChild(nodes: Nodes, p: Path) {
    exists q :: q in nodes && p < q
  }

  /** The same tree but for directories that held nothing. */
  ghost predicate OnlyEmptyDirectoriesGo(before: Nodes, after: Nodes) {
    && (forall p :: p in after ==> p in before && after[p] == before[p])
    && (forall p :: p in before && p !in after ==> before[p].Directory? && !HasChild(after, p))
  }

  /** No directory strictly below the scope is without files. */
  ghost predicate Pruned(nodes: Nodes, scope: Path) {
    IsDirectory(nodes, scope) ==> forall p :: p in nodes && nodes[p].Directory? && scope < p ==> HasFileBelow(nodes, p)
  }

  function DirectoriesBelow(nodes: Nodes, scope: Path): set<Path> {
    set p | p in nodes && nodes[p].Directory? && scope < p
  }

  lemma {:induction false} Deepest(paths: set<Path>) returns (deepest: Path)
    requires paths != {}
    ensures deepest in paths && forall p :: p in paths ==> |p| <= |deepest|
  {
    var some :| some in paths;
    deepest := some;
    if paths != {some} {
      var other := Deepest(paths - {some});
      assert forall p :: p in paths ==> p == some || p in paths - {some};
      if |other| > |some| {
        deepest := other;
      }
    }
  }

  lemma OnlyEmptyTransitive(a: Nodes, b: Nodes, c: Nodes)
    requires OnlyEmptyDirectoriesGo(a, b) && OnlyEmptyDirectoriesGo(b, c)
    ensures OnlyEmptyDirectoriesGo(a, c)
  {
  }

  /** Files below a directory are never pruned, so neither is the directory. */
  lemma FilesBelowStay(before: Nodes, after: Nodes, p: Path)
    requires OnlyEmptyDirectoriesGo(before, after) && HasFileBelow(before, p)
    ensures HasFileBelow(after, p)
  {
    var q :| q in before && p < q && !before[q].Directory?;
    assert q in after;
  }

  lemma LeafRemovalKeepsFiles(nodes: Nodes, p: Path, d: Path)
    requires p in nodes && nodes[p].Directory? && HasFileBelow(nodes, d)
    ensures HasFileBelow(nodes - {p}, d)
  {
    var q :| q in nodes && d < q && !nodes[q].Directory?;
    assert q in nodes - {p};
  }

  lemma KeptHasFile(nodes: Nodes, scope: Path, todo: set<Path>, p: Path)
    requires p in DirectoriesBelow(nodes, scope) && p in todo && HasChild(nodes, p)
    requires forall q :: q in todo ==> |q| <= |p|
    requires forall d :: d in DirectoriesBelow(nodes, scope) && d !in todo ==> HasFileBelow(nodes, d)
    ensures HasFileBelow(nodes, p)
  {
    var q :| q in nodes && p < q;
    if nodes[q].Directory? {
      assert q in DirectoriesBelow(nodes, scope);
      var f :| f in nodes && q < f && !nodes[f].Directory?;
      assert p < f;
    }
  }

  /** The visited directories below the scope all have files. */
  ghost predicate VisitedHaveFiles(nodes: Nodes, scope: Path, todo: set<Path>) {
    forall d :: d in DirectoriesBelow(nodes, scope) && d !in todo ==> HasFileBelow(nodes, d)
  }

  /** One visit: the directory goes if nothing is below it. */
  method RemoveIfEmpty(tree: FileTree, scope: Path, p: Path, ghost todo: set<Path>)
    requires p in todo && todo <= DirectoriesBelow(tree.nodes, scope)
    requires forall q :: q in todo ==> |q| <= |p|
    requires VisitedHaveFiles(tree.nodes, scope, todo)
    modifies tree
    ensures OnlyEmptyDirectoriesGo(old(tree.nodes), tree.nodes)
    ensures todo - {p} <= DirectoriesBelow(tree.nodes, scope)
    ensures VisitedHaveFiles(tree.nodes, scope, todo - {p})
    ensures HasFileBelow(old(tree.nodes), p) ==> tree.nodes == old(tree.nodes)
  {
    ghost var now := tree.nodes;
    if !HasChild(tree.nodes, p) {
      forall d | d in DirectoriesBelow(now - {p}, scope) && d !in todo
        ensures HasFileBelow(now - {p}, d)
      {
        LeafRemovalKeepsFiles(now, p, d);
      }
      tree.nodes := tree.nodes - {p};
    } else {
      KeptHasFile(now, scope, todo, p);
    }
  }

  /** One scope: its directories are visited children first, and removed when nothing is left below them. */
  method PruneScope(tree: FileTree, scope: Path)
    modifies tree
    ensures OnlyEmptyDirectoriesGo(old(tree.nodes), tree.nodes)
    ensures Pruned(tree.nodes, scope)
    ensures Pruned(old(tree.nodes), scope) ==> tree.nodes == old(tree.nodes)
  {
    if !IsDirectory(tree.nodes, scope) {
      return;
    }
    ghost var before := tree.nodes;
    var todo := DirectoriesBelow(tree.nodes, scope);
    while todo != {}
      invariant todo <= DirectoriesBelow(tree.nodes, scope)
      invariant OnlyEmptyDirectoriesGo(before, tree.nodes)
      invariant VisitedHaveFiles(tree.nodes, scope, todo)
      invariant Pruned(before, scope) ==> tree.nodes == before
      decreases todo
    {
      ghost var deepest := Deepest(todo);
      var p :| p in todo && forall q :: q in todo ==> |q| <= |p|;
      ghost var now := tree.nodes;
      RemoveIfEmpty(tree, scope, p, todo);
      OnlyEmptyTransitive(before, now, tree.nodes);
      todo := todo - {p};
    }
  }

  method PruneDirectories(plan: Plan, tree: FileTree)
    modifies tree
    ensures OnlyEmptyDirectoriesGo(old(tree.nodes), tree.nodes)
    ensures forall d :: 0 <= d < |plan.directories| ==> Pruned(tree.nodes, plan.directories[d].0)
    ensures (forall d :: 0 <= d < |plan.directories| ==> Pruned(old(tree.nodes), plan.directories[d].0)) ==> tree.nodes == old(tree.nodes)
  {
    ghost var before := tree.nodes;
    for n := 0 to |plan.directories|
      invariant OnlyEmptyDirectoriesGo(before, tree.nodes)
      invariant forall d :: 0 <= d < n ==> Pruned(tree.nodes, plan.directories[d].0)
      invariant (forall d :: 0 <= d < |plan.directories| ==> Pruned(before, plan.directories[d].0)) ==> tree.nodes == before
    {
      ghost var now := tree.nodes;
      PruneScope(tree, plan.directories[n].0);
      OnlyEmptyTransitive(before, now, tree.nodes);
      forall d | 0 <= d < n
        ensures Pruned(tree.nodes, plan.directories[d].0)
      {
        PrunedStays(now, tree.nodes, plan.directories[d].0);
      }
    }
  }

  lemma PrunedStays(before: Nodes, after: Nodes, scope: Path)
    requires OnlyEmptyDirectoriesGo(before, after) && Pruned(before, scope)
    ensures Pruned(after, scope)
  {
    if IsDirectory(after, scope) {
      forall p | p in after && after[p].Directory? && scope < p
        ensures HasFileBelow(after, p)
      {
        FilesBelowStay(before, after, p);
      }
    }
  }

  // ------------------------------------------------------------ the writer

  /** The tree between the sweep and the pruning of a successful write. */
  ghost function CleanTree(plan: Plan, glob: Glob, written: Nodes): Nodes {
    PatternSwept(plan, glob, Swept(plan, written, |plan.directories|), |plan.patterns|)
  }

  lemma CleanTreeExact(plan: Plan, glob: Glob, written: Nodes, p: Path)
    ensures p in CleanTree(plan, glob, written) <==> p in written && !Stale(plan, glob, written, p)
    ensures p in CleanTree(plan, glob, written) ==> CleanTree(plan, glob, written)[p] == written[p]
  {
    var swept := Swept(plan, written, |plan.directories|);
    if p in swept {
      assert forall k :: 0 <= k < |plan.patterns| ==> StaleByPattern(plan, glob, swept, k, p) == StaleByPattern(plan, glob, written, k, p);
    }
  }

  datatype Report = Report(written: seq<Path>, removed: seq<Path>)

  /** What a successful write did to the tree. */
  ghost predicate Effect(plan: Plan, glob: Glob, before: Nodes, after: Nodes, report: Report) {
    && WriteItems(plan, before, |plan.files|).Ok?
    && var written := WriteItems(plan, before, |plan.files|).value;
    && (forall k :: 0 <= k < |plan.patterns| ==> glob.valid(plan.patterns[k]))
    && OnlyEmptyDirectoriesGo(CleanTree(plan, glob, written), after)
    && (forall d :: 0 <= d < |plan.directories| ==> Pruned(after, plan.directories[d].0))
    && report.written == WrittenTargets(plan, before, |plan.files|)
    && Enumerates(report.removed, set p | p in written && Stale(plan, glob, written, p))
  }

  lemma WritingKeepsForeign(plan: Plan, glob: Glob, nodes: Nodes, n: nat)
    requires n <= |plan.files| && WriteItems(plan, nodes, n).Ok?
    ensures KeepsForeign(plan, glob, nodes, WriteItems(plan, nodes, n).value)
  {
    forall p | p in nodes && !nodes[p].Directory? && Foreign(plan, glob, p)
      ensures p in WriteItems(plan, nodes, n).value && WriteItems(plan, nodes, n).value[p] == nodes[p]
    {
      WriteEffect(plan, nodes, n, p);
      LastForTarget(plan, n, p);
    }
  }

  lemma SweepingKeepsForeign(plan: Plan, glob: Glob, nodes: Nodes)
    ensures KeepsForeign(plan, glob, nodes, Swept(plan, nodes, |plan.directories|))
  {
  }

  /** A write of this plan to this tree raises. */
  ghost predicate WriteFails(plan: Plan, glob: Glob, nodes: Nodes) {
    var written := WriteItems(plan, nodes, |plan.files|);
    written.Err? || PatternTrouble(plan, glob, Swept(plan, written.value, |plan.directories|), |plan.patterns|)
  }

  method Write(plan: Plan, glob: Glob, tree: FileTree) returns (r: Result<Report, SyncError>)
    modifies tree
    ensures r.Ok? ==> Effect(plan, glob, old(tree.nodes), tree.nodes, r.value)
    ensures r.Err? <==> WriteFails(plan, glob, old(tree.nodes))
    ensures r.Ok? && (forall d :: 0 <= d < |plan.directories| ==> Pruned(CleanTree(plan, glob, WriteItems(plan, old(tree.nodes), |plan.files|).value), plan.directories[d].0)) ==>
      tree.nodes == CleanTree(plan, glob, WriteItems(plan, old(tree.nodes), |plan.files|).value)
    ensures KeepsOutOfReach(plan, glob, old(tree.nodes), tree.nodes)
    ensures r.Ok? ==> ClaimedAreGone(plan, old(tree.nodes), tree.nodes)
  {
    ghost var before := tree.nodes;
    r := WriteAndSweep(plan, glob, tree);
    KeepsWhatIsOutOfReach(plan, glob, before, tree.nodes);
    if r.Ok? {
      ClaimedGoAfterWrite(plan, glob, before, tree.nodes, r.value);
    }
  }

  /** The three phases of a write. */
  method WriteAndSweep(plan: Plan, glob: Glob, tree: FileTree) returns (r: Result<Report, SyncError>)
    modifies tree
    ensures r.Ok? ==> Effect(plan, glob, old(tree.nodes), tree.nodes, r.value)
    ensures r.Err? <==> WriteFails(plan, glob, old(tree.nodes))
    ensures r.Ok? && (forall d :: 0 <= d < |plan.directories| ==> Pruned(CleanTree(plan, glob, WriteItems(plan, old(tree.nodes), |plan.files|).value), plan.directories[d].0)) ==>
      tree.nodes == CleanTree(plan, glob, WriteItems(plan, old(tree.nodes), |plan.files|).value)
    ensures KeepsForeign(plan, glob, old(tree.nodes), tree.nodes)
  {
    ghost var before := tree.nodes;
    var written := WriteFiles(plan, tree);
    if written.Err? {
      ghost var n :| 0 <= n < |plan.files| && WriteItems(plan, before, n) == Ok(tree.nodes);
      WritingKeepsForeign(plan, glob, before, n);
      return Err(written.error);
    }
    WritingKeepsForeign(plan, glob, before, |plan.files|);
    ghost var mid := tree.nodes;
    var byScope := RemoveScopeFiles(plan, tree);
    SweepingKeepsForeign(plan, glob, mid);
    ghost var swept := tree.nodes;
    var byPattern := RemovePatternFiles(plan, glob, tree);
    if byPattern.Err? {
      return Err(byPattern.error);
    }
    ghost var s := set p | p in mid && ScopeStale(plan, mid, |plan.directories|, p);
    ghost var t := set p | p in swept && PatternStale(plan, glob, swept, |plan.patterns|, p);
    EnumeratesConcat(byScope, byPattern.value, s, t);
    StaleParts(plan, glob, mid, s, t);
    PruneDirectories(plan, tree);
    r := Ok(Report(written.value, byScope + byPattern.value));
    ForeignFilesKept(plan, glob, before, tree.nodes, r.value);
  }

  lemma ClaimsAreManaged(plan: Plan, d: nat, p: Path)
    requires d < |plan.directories|
    ensures Claims(plan, d, p) <==> plan.directories[d].0 < p && Managed(plan, plan.directories[d].0, plan.directories[d].1, p)
  {
  }

  /** A successful write removes every unplanned file that a mapping claims. */
  lemma ClaimedGoAfterWrite(plan: Plan, glob: Glob, before: Nodes, after: Nodes, report: Report)
    requires Effect(plan, glob, before, after, report)
    ensures ClaimedAreGone(plan, before, after)
  {
    var written := WriteItems(plan, before, |plan.files|).value;
    forall p, d |
      && p in before && !before[p].Directory? && (forall i :: 0 <= i < |plan.files| ==> plan.files[i].target != p)
      && 0 <= d < |plan.directories| && Claims(plan, d, p)
      && (plan.directories[d].0 == [] || (plan.directories[d].0 in before && before[plan.directories[d].0].Directory?))
      ensures p !in after
    {
      LastForTarget(plan, |plan.files|, p);
      WriteEffect(plan, before, |plan.files|, p);
      ScopeSurvivesWriting(plan, before, |plan.files|, plan.directories[d].0);
      ClaimsAreManaged(plan, d, p);
      assert StaleInScope(plan, written, d, p);
      FilesAfterWrite(plan, glob, before, after, report, p);
    }
  }

  /** Writing never replaces a directory. */
  lemma {:induction false} ScopeSurvivesWriting(plan: Plan, nodes: Nodes, n: nat, scope: Path)
    requires n <= |plan.files| && WriteItems(plan, nodes, n).Ok? && IsDirectory(nodes, scope)
    ensures IsDirectory(WriteItems(plan, nodes, n).value, scope)
  {
    if n > 0 {
      ScopeSurvivesWriting(plan, nodes, n - 1, scope);
      hide TargetMatches, ParentBlocked;
      WriteItemEffect(plan, WriteItems(plan, nodes, n - 1).value, plan.files[n - 1], scope);
    }
  }

  lemma StaleParts(plan: Plan, glob: Glob, mid: Nodes, s: set<Path>, t: set<Path>)
    requires s == set p | p in mid && ScopeStale(plan, mid, |plan.directories|, p)
    requires var swept := Swept(plan, mid, |plan.directories|); t == set p | p in swept && PatternStale(plan, glob, swept, |plan.patterns|, p)
    ensures s + t == set p | p in mid && Stale(plan, glob, mid, p)
  {
    var swept := Swept(plan, mid, |plan.directories|);
    forall p | p in mid
      ensures p in s + t <==> Stale(plan, glob, mid, p)
    {
      if p in swept {
        assert forall k :: 0 <= k < |plan.patterns| ==> StaleByPattern(plan, glob, swept, k, p) == StaleByPattern(plan, glob, mid, k, p);
      }
    }
  }

  // ------------------------------------------------------ the drift checker

  datatype Finding =
    | IsSymlink(target: Path)
    | BlockedByDirectory(target: Path)
    | Missing(target: Path)
    | ContentDiffers(target: Path)
    | ModeDiffers(target: Path)
    | StaleFile(path: Path)

  /** The findings about one planned file: one for a target that is no file, else one for each difference. */
  function ItemFindings(plan: Plan, nodes: Nodes, item: Planned): (found: seq<Finding>)
    ensures found == [] <==> TargetMatches(plan, nodes, item)
    ensures item.target == [] || (item.target in nodes && nodes[item.target].Directory?) <==> BlockedByDirectory(item.target) in found
    ensures item.target != [] && item.target !in nodes <==> Missing(item.target) in found
    ensures item.target != [] && item.target in nodes && nodes[item.target].Symlink? <==> IsSymlink(item.target) in found
    ensures item.target != [] && item.target in nodes && nodes[item.target].File? ==>
      && (ContentDiffers(item.target) in found <==> nodes[item.target].bytes != item.source)
      && (ModeDiffers(item.target) in found <==> nodes[item.target].mode != ExpectedMode(plan, item))
    ensures forall f :: f in found ==> !f.StaleFile? && f.target == item.target
  {
    if item.target == [] then [BlockedByDirectory(item.target)]
    else if item.target !in nodes then [Missing(item.target)]
    else
      match nodes[item.target]
      case Symlink(_) => [IsSymlink(item.target)]
      case Directory => [BlockedByDirectory(item.target)]
      case File(bytes, mode) =>
        (if bytes != item.source then [ContentDiffers(item.target)] else [])
        + (if mode != ExpectedMode(plan, item) then [ModeDiffers(item.target)] else [])
  }

  method CheckItem(plan: Plan, nodes: Nodes, item: Planned) returns (drift: seq<Finding>)
    ensures drift == ItemFindings(plan, nodes, item)
  {
    if item.target == [] {
      return [BlockedByDirectory(item.target)];
    }
    if item.target !in nodes {
      return [Missing(item.target)];
    }
    drift := [];
    match nodes[item.target] {
      case Symlink(_) => drift := [IsSymlink(item.target)];
      case Directory => drift := [BlockedByDirectory(item.target)];
      case File(bytes, mode) =>
        if bytes != item.source {
          drift := drift + [ContentDiffers(item.target)];
        }
        if mode != ExpectedMode(plan, item) {
          drift := drift + [ModeDiffers(item.target)];
        }
    }
  }

  ghost function StaleSet(plan: Plan, glob: Glob, nodes: Nodes): set<Path> {
    set p | p in nodes && Stale(plan, glob, nodes, p)
  }

  /** Appends the members of a candidate set that were not seen before. */
  method AppendUnseen(seen: seq<Path>, candidates: set<Path>, ghost members: set<Path>) returns (all: seq<Path>)
    requires Enumerates(seen, members)
    ensures Enumerates(all, members + candidates)
  {
    all := seen;
    var remaining := candidates;
    assert members + (candidates - remaining) == members;
    while remaining != {}
      invariant remaining <= candidates
      invariant Enumerates(all, members + (candidates - remaining))
      decreases remaining
    {
      var p :| p in remaining;
      remaining := remaining - {p};
      if p !in all {
        all := all + [p];
      }
    }
    assert members + (candidates - remaining) == members + candidates;
  }

  /** The stale files of an unchanging tree, each listed once. */
  method StalePaths(plan: Plan, glob: Glob, nodes: Nodes) returns (r: Result<seq<Path>, SyncError>)
    ensures r.Err? <==> PatternTrouble(plan, glob, nodes, |plan.patterns|)
    ensures r.Ok? ==> Enumerates(r.value, StaleSet(plan, glob, nodes))
  {
    var seen := StaleByScope(plan, nodes);
    ghost var byScope := set p | p in nodes && ScopeStale(plan, nodes, |plan.directories|, p);
    ghost var members := byScope;
    for k := 0 to |plan.patterns|
      invariant Enumerates(seen, members)
      invariant !PatternTrouble(plan, glob, nodes, k)
      invariant members == byScope + set p | p in nodes && PatternStale(plan, glob, nodes, k, p)
    {
      if !glob.valid(plan.patterns[k]) {
        return Err(InvalidPattern);
      }
      var matched := PatternDoomed(plan, glob, nodes, k);
      if Escapes(nodes, matched) {
        return Err(EscapingMatch);
      }
      seen := AppendUnseen(seen, matched, members);
      forall p | p in matched
        ensures PatternStale(plan, glob, nodes, k + 1, p)
      {
        assert StaleByPattern(plan, glob, nodes, k, p);
      }
      members := members + matched;
    }
    assert members == StaleSet(plan, glob, nodes);
    r := Ok(seen);
  }

  /** The mappings' part of the generator. */
  method StaleByScope(plan: Plan, nodes: Nodes) returns (seen: seq<Path>)
    ensures Enumerates(seen, set p | p in nodes && ScopeStale(plan, nodes, |plan.directories|, p))
  {
    seen := [];
    ghost var members: set<Path> := {};
    for d := 0 to |plan.directories|
      invariant Enumerates(seen, members)
      invariant members == set p | p in nodes && ScopeStale(plan, nodes, d, p)
    {
      var owned := ScopeDoomed(plan, nodes, d);
      seen := AppendUnseen(seen, owned, members);
      forall p | p in owned
        ensures ScopeStale(plan, nodes, d + 1, p)
      {
        assert StaleInScope(plan, nodes, d, p);
      }
      members := members + owned;
    }
  }

  /** The checker never looks at how the tree came about: it compares every target and lists every stale file. */
  method Drift(plan: Plan, glob: Glob, tree: FileTree) returns (r: Result<seq<Finding>, SyncError>)
    ensures r.Err? <==> PatternTrouble(plan, glob, tree.nodes, |plan.patterns|)
    ensures r.Ok? ==>
      (r.value == [] <==>
        && (forall i :: 0 <= i < |plan.files| ==> TargetMatches(plan, tree.nodes, plan.files[i]))
        && StaleSet(plan, glob, tree.nodes) == {})
    ensures r.Ok? ==>
      forall f :: f in r.value <==>
        if f.StaleFile? then f.path in StaleSet(plan, glob, tree.nodes)
        else exists i :: 0 <= i < |plan.files| && f in ItemFindings(plan, tree.nodes, plan.files[i])
  {
    hide ItemFindings;
    var drift: seq<Finding> := [];
    for n := 0 to |plan.files|
      invariant drift == [] <==> forall i :: 0 <= i < n ==> TargetMatches(plan, tree.nodes, plan.files[i])
      invariant forall f :: f in drift <==> exists i :: 0 <= i < n && f in ItemFindings(plan, tree.nodes, plan.files[i])
    {
      var found := CheckItem(plan, tree.nodes, plan.files[n]);
      drift := drift + found;
    }
    var stale := StalePaths(plan, glob, tree.nodes);
    if stale.Err? {
      return Err(stale.error);
    }
    FirstMember(stale.value, StaleSet(plan, glob, tree.nodes));
    assert StaleSet(plan, glob, tree.nodes) != {} ==> stale.value != [];
    var staleFindings := StaleFindings(stale.value);
    r := Ok(drift + staleFindings);
  }

  function StaleFindings(paths: seq<Path>): (found: seq<Finding>)
    ensures |found| == |paths|
    ensures forall f :: f in found <==> f.StaleFile? && f.path in paths
  {
    if paths == [] then [] else
      assert paths == paths[..|paths| - 1] + [paths[|paths| - 1]];
      StaleFindings(paths[..|paths| - 1]) + [StaleFile(paths[|paths| - 1])]
  }

  // ---------------------------------------------- the writer meets the checker

  /**
    The plan can be satisfied at all: files planned for one target agree, and no legacy
    pattern matches a target (the pattern loop never consults the plan).
   */
  ghost predicate Coherent(plan: Plan, glob: Glob) {
    && (forall i, j :: 0 <= i < |plan.files| && 0 <= j < |plan.files| && plan.files[i].target == plan.files[j].target ==>
         Vendored(plan, plan.files[i]) == Vendored(plan, plan.files[j]))
    && (forall i, k :: 0 <= i < |plan.files| && 0 <= k < |plan.patterns| ==> !glob.matches(plan.patterns[k], plan.files[i].target))
  }

  ghost function Written(plan: Plan, before: Nodes): Nodes
    requires WriteItems(plan, before, |plan.files|).Ok?
  {
    WriteItems(plan, before, |plan.files|).value
  }

  /** Files after the write are exactly the files of the written tree that are not stale in it. */
  lemma FilesAfterWrite(plan: Plan, glob: Glob, before: Nodes, after: Nodes, report: Report, p: Path)
    requires Effect(plan, glob, before, after, report)
    ensures var written := Written(plan, before);
      && (p in after ==> p in written && after[p] == written[p])
      && (p in written && !written[p].Directory? ==> (p in after <==> !Stale(plan, glob, written, p)))
  {
    CleanTreeExact(plan, glob, Written(plan, before), p);
  }

  lemma NothingStaleAfterWrite(plan: Plan, glob: Glob, before: Nodes, after: Nodes, report: Report, p: Path)
    requires Effect(plan, glob, before, after, report)
    ensures !Stale(plan, glob, after, p)
  {
    var written := Written(plan, before);
    FilesAfterWrite(plan, glob, before, after, report, p);
    if p in after && !after[p].Directory? {
      forall d | 0 <= d < |plan.directories|
        ensures !StaleInScope(plan, after, d, p)
      {
        FilesAfterWrite(plan, glob, before, after, report, plan.directories[d].0);
        assert !StaleInScope(plan, written, d, p);
      }
      forall k | 0 <= k < |plan.patterns|
        ensures !StaleByPattern(plan, glob, after, k, p)
      {
        assert !StaleByPattern(plan, glob, written, k, p);
      }
    }
  }

  lemma TargetAfterWrite(plan: Plan, glob: Glob, before: Nodes, after: Nodes, report: Report, i: nat)
    requires Effect(plan, glob, before, after, report) && i < |plan.files|
    ensures var t := plan.files[i].target;
      && (t in after <==> forall k :: 0 <= k < |plan.patterns| ==> !glob.matches(plan.patterns[k], t))
      && (t in after ==> exists j :: 0 <= j < |plan.files| && plan.files[j].target == t && after[t] == Vendored(plan, plan.files[j]))
  {
    var t := plan.files[i].target;
    var written := Written(plan, before);
    WriteEffect(plan, before, |plan.files|, t);
    LastForTarget(plan, |plan.files|, t);
    FilesAfterWrite(plan, glob, before, after, report, t);
    assert t in Targets(plan);
    assert forall k :: 0 <= k < |plan.patterns| ==> StaleByPattern(plan, glob, written, k, t) == glob.matches(plan.patterns[k], t);
  }

  /** After a successful write every target is as planned exactly when the plan is coherent, and nothing is stale in any case. */
  lemma WriteSatisfiesChecker(plan: Plan, glob: Glob, before: Nodes, after: Nodes, report: Report)
    requires Effect(plan, glob, before, after, report)
    ensures (forall i :: 0 <= i < |plan.files| ==> TargetMatches(plan, after, plan.files[i])) <==> Coherent(plan, glob)
    ensures StaleSet(plan, glob, after) == {}
  {
    forall p | p in after
      ensures !Stale(plan, glob, after, p)
    {
      NothingStaleAfterWrite(plan, glob, before, after, report, p);
    }
    forall i | 0 <= i < |plan.files|
      ensures Coherent(plan, glob) ==> TargetMatches(plan, after, plan.files[i])
      ensures TargetMatches(plan, after, plan.files[i]) ==> forall k :: 0 <= k < |plan.patterns| ==> !glob.matches(plan.patterns[k], plan.files[i].target)
    {
      TargetAfterWrite(plan, glob, before, after, report, i);
      TargetNotRoot(plan, before, i);
    }
  }

  lemma {:induction false} TargetNotRootWithin(plan: Plan, nodes: Nodes, n: nat, i: nat)
    requires i < n <= |plan.files| && WriteItems(plan, nodes, n).Ok?
    ensures plan.files[i].target != []
  {
    if i < n - 1 {
      TargetNotRootWithin(plan, nodes, n - 1, i);
    }
  }

  lemma TargetNotRoot(plan: Plan, nodes: Nodes, i: nat)
    requires i < |plan.files| && WriteItems(plan, nodes, |plan.files|).Ok?
    ensures plan.files[i].target != []
  {
    TargetNotRootWithin(plan, nodes, |plan.files|, i);
  }

  /** A file that is not planned, not owned by a mapping and not matched by a pattern keeps its bytes and mode. */
  lemma ForeignFilesKept(plan: Plan, glob: Glob, before: Nodes, after: Nodes, report: Report)
    requires Effect(plan, glob, before, after, report)
    ensures KeepsForeign(plan, glob, before, after)
  {
    forall p | p in before && !before[p].Directory? && Foreign(plan, glob, p)
      ensures p in after && after[p] == before[p]
    {
      WriteEffect(plan, before, |plan.files|, p);
      LastForTarget(plan, |plan.files|, p);
      FilesAfterWrite(plan, glob, before, after, report, p);
    }
  }

  lemma SettledTree(plan: Plan, glob: Glob, nodes: Nodes)
    requires StaleSet(plan, glob, nodes) == {}
    ensures Swept(plan, nodes, |plan.directories|) == nodes
    ensures CleanTree(plan, glob, nodes) == nodes
  {
    assert forall p :: p in nodes ==> !Stale(plan, glob, nodes, p) by {
      forall p | p in nodes
        ensures !Stale(plan, glob, nodes, p)
      {
        assert p !in StaleSet(plan, glob, nodes);
      }
    }
    assert Swept(plan, nodes, |plan.directories|) == nodes;
  }

  lemma NoTroubleWithoutStale(plan: Plan, glob: Glob, nodes: Nodes)
    requires StaleSet(plan, glob, nodes) == {}
    requires forall k :: 0 <= k < |plan.patterns| ==> glob.valid(plan.patterns[k])
    ensures !PatternTrouble(plan, glob, nodes, |plan.patterns|)
  {
    forall k | 0 <= k < |plan.patterns|
      ensures PatternDoomed(plan, glob, nodes, k) == {}
    {
      forall p | p in PatternDoomed(plan, glob, nodes, k)
        ensures p in StaleSet(plan, glob, nodes)
      {
        assert StaleByPattern(plan, glob, nodes, k, p);
      }
    }
  }

  /** Writing and then checking: only the write can raise, and the checker is satisfied exactly by coherent plans. */
  method WriteAndCheck(plan: Plan, glob: Glob, tree: FileTree) returns (r: Result<seq<Finding>, SyncError>)
    modifies tree
    ensures r.Err? <==> WriteFails(plan, glob, old(tree.nodes))
    ensures r.Ok? ==> (r.value == [] <==> Coherent(plan, glob))
  {
    ghost var before := tree.nodes;
    var written := Write(plan, glob, tree);
    if written.Err? {
      return Err(written.error);
    }
    WriteSatisfiesChecker(plan, glob, before, tree.nodes, written.value);
    NoTroubleWithoutStale(plan, glob, tree.nodes);
    r := Drift(plan, glob, tree);
  }

  /** A plan with two different files for one target is written without an error and then reported as drifted. */
  method TwoFilesForOneTarget(first: Bytes, second: Bytes, name: string, glob: Glob) returns (plan: Plan, r: Result<seq<Finding>, SyncError>)
    requires first != second
    ensures plan.files == [Planned(first, 0, [name]), Planned(second, 0, [name])]
    ensures !Coherent(plan, glob)
    ensures r.Ok? && r.value != []
  {
    plan := Plan([], [Planned(first, 0, [name]), Planned(second, 0, [name])], [], [], "", "");
    assert Vendored(plan, plan.files[0]).bytes != Vendored(plan, plan.files[1]).bytes;
    var tree := new FileTree(map[]);
    OneNameIsWritten(plan, [name], 0);
    OneNameIsWritten(plan, [name], 1);
    OneNameIsWritten(plan, [name], 2);
    r := WriteAndCheck(plan, glob, tree);
  }

  lemma {:induction false} OneNameIsWritten(plan: Plan, target: Path, n: nat)
    requires n <= |plan.files| && |target| == 1 && forall i :: 0 <= i < |plan.files| ==> plan.files[i].target == target
    ensures WriteItems(plan, map[], n).Ok?
    ensures forall p :: p in WriteItems(plan, map[], n).value ==> WriteItems(plan, map[], n).value[p].File?
  {
    if n > 0 {
      OneNameIsWritten(plan, target, n - 1);
    }
  }

  /** A second write after a successful one of a coherent plan writes nothing, removes nothing and leaves the tree as it is. */
  method WriteAgain(plan: Plan, glob: Glob, tree: FileTree, ghost before: Nodes, ghost report: Report) returns (r: Result<Report, SyncError>)
    requires Effect(plan, glob, before, tree.nodes, report) && Coherent(plan, glob)
    modifies tree
    ensures r == Ok(Report([], []))
    ensures tree.nodes == old(tree.nodes)
  {
    ghost var settled := tree.nodes;
    WriteSatisfiesChecker(plan, glob, before, settled, report);
    NothingToWrite(plan, settled, |plan.files|);
    SettledTree(plan, glob, settled);
    NoTroubleWithoutStale(plan, glob, settled);
    r := Write(plan, glob, tree);
    FirstMember(r.value.removed, StaleSet(plan, glob, settled));
  }
}
