/**
  The import walk over a Vite manifest, the checks over the same graph, and the stylesheet
  list derived from the walk.
 */
module ManifestWalk {
  import opened Outcomes

  /** An element of a JSON list that the code expects to be a string. */
  datatype Item = Text(text: string) | NotText

  /** The `imports` field: anything falsy counts as no imports. */
  datatype Imports = NoImports | ImportList(items: seq<Item>) | NotAList

  /** The `css` field.  A falsy non-list fails the path check but is ignored when collecting. */
  datatype Css = Absent | Null | FalsyNotList | CssList(items: seq<Item>) | TruthyNotList

  /** The `file` field: a string, or anything else. */
  datatype File = Path(path: string) | NoPath

  datatype Entry = NotADict | Dict(file: File, css: Css, imports: Imports)

  type Manifest = map<string, Entry>

  datatype AssetFileMissing = AssetFileMissing

  function ImportItems(entry: Entry): seq<Item> {
    if entry.Dict? && entry.imports.ImportList? then entry.imports.items else []
  }

  predicate AllText(items: seq<Item>) {
    forall i :: 0 <= i < |items| ==> items[i].Text?
  }

  /** The entry of a key the walk can get past. */
  predicate WalkableKey(m: Manifest, key: string) {
    && key in m && m[key].Dict?
    && match m[key].imports
       case NoImports => true
       case NotAList => false
       case ImportList(items) => forall i :: 0 <= i < |items| ==> items[i].Text?
  }

  /** Key `u` is present and names `v` as an import. */
  predicate Links(m: Manifest, u: string, v: string) {
    u in m && m[u].Dict? && m[u].imports.ImportList? && Text(v) in m[u].imports.items
  }

  ghost predicate IsPath(m: Manifest, p: seq<string>) {
    p != [] && forall i :: 0 <= i < |p| - 1 ==> Links(m, p[i], p[i + 1])
  }

  ghost predicate Reaches(m: Manifest, u: string, v: string) {
    exists p :: IsPath(m, p) && p[0] == u && p[|p| - 1] == v
  }

  lemma ReachesSelf(m: Manifest, u: string)
    ensures Reaches(m, u, u)
  {
    assert IsPath(m, [u]);
  }

  lemma ReachesStep(m: Manifest, u: string, v: string, w: string)
    requires Links(m, u, v) && Reaches(m, v, w)
    ensures Reaches(m, u, w)
  {
    var p :| IsPath(m, p) && p[0] == v && p[|p| - 1] == w;
    assert IsPath(m, [u] + p);
  }

  /** A set closed under imports holds everything reachable from its members. */
  lemma {:induction false} ClosedHoldsPath(m: Manifest, s: set<string>, p: seq<string>)
    requires IsPath(m, p) && p[0] in s
    requires forall u, v :: u in s && Links(m, u, v) ==> v in s
    ensures p[|p| - 1] in s
  {
    if |p| > 1 {
      assert Links(m, p[0], p[1]);
      var rest := p[1..];
      forall i | 0 <= i < |rest| - 1
        ensures Links(m, rest[i], rest[i + 1])
      {
        assert Links(m, p[i + 1], p[i + 2]);
      }
      ClosedHoldsPath(m, s, rest);
    }
  }

  type Assets = seq<(string, Entry)>

  ghost function KeysOf(assets: Assets): set<string> {
    set i | 0 <= i < |assets| :: assets[i].0
  }

  ghost predicate NoRepeats(assets: Assets) {
    forall i, j :: 0 <= i < j < |assets| ==> assets[i].0 != assets[j].0
  }

  /** Key `v` was seen before the walk, or stands before position `n` of its output. */
  ghost predicate Placed(before: set<string>, assets: Assets, n: nat, v: string)
    requires n <= |assets|
  {
    v in before || exists j :: 0 <= j < n && assets[j].0 == v
  }

  /** Every import of an output key is placed before it, unless the import leads back to the key. */
  ghost predicate ImportsFirst(m: Manifest, before: set<string>, assets: Assets) {
    forall i, v :: 0 <= i < |assets| && Links(m, assets[i].0, v) ==>
      Placed(before, assets, i, v) || Reaches(m, v, assets[i].0)
  }

  /** What one (sub)walk from a key achieves, given the keys seen before and after it. */
  ghost predicate Walked(m: Manifest, root: string, before: set<string>, after: set<string>, assets: Assets) {
    && NoRepeats(assets)
    && KeysOf(assets) == after - before && before <= after
    && (forall i :: 0 <= i < |assets| ==> WalkableKey(m, assets[i].0) && assets[i].1 == m[assets[i].0] && Reaches(m, root, assets[i].0))
    && (forall i, v :: 0 <= i < |assets| && Links(m, assets[i].0, v) ==> v in after)
    && ImportsFirst(m, before, assets)
  }

  lemma WalkedNothing(m: Manifest, root: string, seen: set<string>)
    ensures Walked(m, root, seen, seen, [])
  {
  }

  lemma ConcatKeys(a: Assets, b: Assets)
    ensures KeysOf(a + b) == KeysOf(a) + KeysOf(b)
  {
    forall k | k in KeysOf(b)
      ensures k in KeysOf(a + b)
    {
      var i :| 0 <= i < |b| && b[i].0 == k;
      assert (a + b)[|a| + i].0 == k;
    }
    forall k | k in KeysOf(a)
      ensures k in KeysOf(a + b)
    {
      var i :| 0 <= i < |a| && a[i].0 == k;
      assert (a + b)[i].0 == k;
    }
  }

  lemma PlacedAfterConcat(before: set<string>, mid: set<string>, a: Assets, b: Assets, n: nat, v: string)
    requires n <= |b| && KeysOf(a) == mid - before && Placed(mid, b, n, v)
    ensures Placed(before, a + b, |a| + n, v)
  {
    if v in mid {
      if v !in before {
        assert v in KeysOf(a);
        var j :| 0 <= j < |a| && a[j].0 == v;
        assert (a + b)[j].0 == v;
      }
    } else {
      var j :| 0 <= j < n && b[j].0 == v;
      assert (a + b)[|a| + j].0 == v;
    }
  }

  lemma PlacedInPrefix(before: set<string>, a: Assets, b: Assets, n: nat, v: string)
    requires n <= |a| && Placed(before, a, n, v)
    ensures Placed(before, a + b, n, v)
  {
    if v !in before {
      var j :| 0 <= j < n && a[j].0 == v;
      assert (a + b)[j].0 == v;
    }
  }

  /** A walk from an import continues the walk from the importing key. */
  lemma WalkedThenImport(m: Manifest, root: string, item: string, before: set<string>, mid: set<string>, after: set<string>, a: Assets, b: Assets)
    requires Links(m, root, item)
    requires Walked(m, root, before, mid, a) && Walked(m, item, mid, after, b)
    ensures Walked(m, root, before, after, a + b)
  {
    ConcatKeys(a, b);
    forall i, v | 0 <= i < |a + b| && Links(m, (a + b)[i].0, v)
      ensures v in after && (Placed(before, a + b, i, v) || Reaches(m, v, (a + b)[i].0))
    {
      if i < |a| {
        assert Links(m, a[i].0, v);
        if !Reaches(m, v, a[i].0) {
          PlacedInPrefix(before, a, b, i, v);
        }
      } else {
        assert Links(m, b[i - |a|].0, v);
        if !Reaches(m, v, b[i - |a|].0) {
          PlacedAfterConcat(before, mid, a, b, i - |a|, v);
        }
      }
    }
    forall i | 0 <= i < |b|
      ensures Reaches(m, root, b[i].0)
    {
      ReachesStep(m, root, item, b[i].0);
    }
    forall i, j | 0 <= i < |a| && 0 <= j < |b|
      ensures a[i].0 != b[j].0
    {
      assert a[i].0 in KeysOf(a) && b[j].0 in KeysOf(b);
    }
  }

  /** The key itself comes last, once all its imports are seen. */
  lemma WalkedThenSelf(m: Manifest, root: string, before: set<string>, after: set<string>, a: Assets)
    requires root !in before && root in after && WalkableKey(m, root)
    requires Walked(m, root, before + {root}, after, a)
    requires forall v :: Links(m, root, v) ==> v in after
    ensures Walked(m, root, before, after, a + [(root, m[root])])
  {
    var self := [(root, m[root])];
    var all := a + self;
    ConcatKeys(a, self);
    assert self[0].0 == root;
    assert KeysOf(self) == {root};
    ReachesSelf(m, root);
    forall i, v | 0 <= i < |all| && Links(m, all[i].0, v)
      ensures v in after && (Placed(before, all, i, v) || Reaches(m, v, all[i].0))
    {
      if i < |a| {
        assert Links(m, a[i].0, v);
        if v != root && !Reaches(m, v, a[i].0) {
          assert Placed(before, a, i, v);
          PlacedInPrefix(before, a, self, i, v);
        }
      } else if v != root && v !in before {
        assert v in KeysOf(a);
        var j :| 0 <= j < |a| && a[j].0 == v;
        assert all[j].0 == v;
      }
    }
    forall i | 0 <= i < |a|
      ensures a[i].0 != root
    {
      assert a[i].0 in KeysOf(a);
    }
  }

  /** Some key reachable from the root stops the walk. */
  ghost predicate Broken(m: Manifest, root: string) {
    exists k :: Reaches(m, root, k) && !WalkableKey(m, k)
  }

  lemma BrokenImport(m: Manifest, root: string, item: string)
    requires Links(m, root, item) && Broken(m, item)
    ensures Broken(m, root)
  {
    var k :| Reaches(m, item, k) && !WalkableKey(m, k);
    ReachesStep(m, root, item, k);
  }

  /** The mutable set of keys shared by one walk. */
  class Seen {
    var keys: set<string>

    constructor ()
      ensures keys == {}
    {
      keys := {};
    }
  }

  method Walk(m: Manifest, key: string, seen: Seen) returns (r: Result<Assets, AssetFileMissing>)
    modifies seen
    ensures old(seen.keys) <= seen.keys
    ensures r.Ok? ==> Walked(m, key, old(seen.keys), seen.keys, r.value) && key in seen.keys
    ensures r.Ok? && key !in old(seen.keys) ==> |r.value| > 0 && r.value[|r.value| - 1].0 == key
    ensures r.Err? ==> Broken(m, key)
    decreases m.Keys - seen.keys
  {
    if key in seen.keys {
      WalkedNothing(m, key, seen.keys);
      return Ok([]);
    }
    ReachesSelf(m, key);
    if key !in m || !m[key].Dict? {
      return Err(AssetFileMissing);
    }
    ghost var before := seen.keys;
    seen.keys := seen.keys + {key};
    var ordered: Assets := [];
    if m[key].imports.NotAList? {
      return Err(AssetFileMissing);
    }
    var items := ImportItems(m[key]);
    WalkedNothing(m, key, seen.keys);
    for i := 0 to |items|
      invariant before + {key} <= seen.keys
      invariant Walked(m, key, before + {key}, seen.keys, ordered)
      invariant forall j :: 0 <= j < i ==> items[j].Text? && items[j].text in seen.keys
    {
      if items[i].NotText? {
        return Err(AssetFileMissing);
      }
      var item := items[i].text;
      assert Links(m, key, item);
      ghost var mid := seen.keys;
      var sub := Walk(m, item, seen);
      if sub.Err? {
        BrokenImport(m, key, item);
        return sub;
      }
      WalkedThenImport(m, key, item, before + {key}, mid, seen.keys, ordered, sub.value);
      ordered := ordered + sub.value;
    }
    WalkedThenSelf(m, key, before, seen.keys, ordered);
    ordered := ordered + [(key, m[key])];
    r := Ok(ordered);
  }

  /** The promise of a whole walk: exactly the reachable keys, each once, the entry last, imports first. */
  ghost predicate IsImportOrder(m: Manifest, root: string, assets: Assets) {
    && |assets| > 0 && assets[|assets| - 1].0 == root
    && NoRepeats(assets)
    && (forall i :: 0 <= i < |assets| ==> assets[i].0 in m && assets[i].1 == m[assets[i].0])
    && (forall k :: k in KeysOf(assets) <==> Reaches(m, root, k))
    && (forall i, j :: 0 <= i < |assets| && 0 <= j < |assets| && Links(m, assets[i].0, assets[j].0) && !Reaches(m, assets[j].0, assets[i].0) ==> j < i)
  }

  lemma WholeWalk(m: Manifest, root: string, after: set<string>, assets: Assets)
    requires Walked(m, root, {}, after, assets) && root in after
    requires |assets| > 0 && assets[|assets| - 1].0 == root
    ensures IsImportOrder(m, root, assets) && !Broken(m, root)
  {
    forall u, v | u in after && Links(m, u, v)
      ensures v in after
    {
      assert u in KeysOf(assets);
    }
    forall k | Reaches(m, root, k)
      ensures k in KeysOf(assets) && WalkableKey(m, k)
    {
      var p :| IsPath(m, p) && p[0] == root && p[|p| - 1] == k;
      ClosedHoldsPath(m, after, p);
    }
    forall i, j | 0 <= i < |assets| && 0 <= j < |assets| && Links(m, assets[i].0, assets[j].0) && !Reaches(m, assets[j].0, assets[i].0)
      ensures j < i
    {
      assert Placed({}, assets, i, assets[j].0);
    }
  }

  /** The walk from a fresh `seen` set: it fails exactly when something reachable is missing or malformed. */
  method WalkManifestImports(m: Manifest, root: string) returns (r: Result<Assets, AssetFileMissing>)
    ensures r.Ok? ==> IsImportOrder(m, root, r.value)
    ensures r.Err? <==> Broken(m, root)
  {
    var seen := new Seen();
    r := Walk(m, root, seen);
    if r.Ok? {
      WholeWalk(m, root, seen.keys, r.value);
    }
  }

  // ---------------------------------------------------------- path checks

  predicate StylesheetsPresent(files: set<string>, items: seq<Item>, n: nat)
    requires n <= |items|
  {
    forall i :: 0 <= i < n ==> items[i].Text? && items[i].text in files
  }

  /** What the path check demands of an entry; `files` are the regular files under the dist root. */
  predicate AssetsPresent(files: set<string>, entry: Entry) {
    && entry.Dict?
    && entry.file.Path? && entry.file.path != "" && entry.file.path in files
    && match entry.css
       case Absent => true
       case Null => true
       case CssList(items) => StylesheetsPresent(files, items, |items|)
       case FalsyNotList => false
       case TruthyNotList => false
  }

  method VerifyAssetPaths(files: set<string>, entry: Entry) returns (ok: bool)
    requires entry.Dict?
    ensures ok <==> AssetsPresent(files, entry)
  {
    if entry.file.NoPath? || entry.file.path == "" || entry.file.path !in files {
      return false;
    }
    if entry.css.Absent? || entry.css.Null? {
      return true;
    }
    if !entry.css.CssList? {
      return false;
    }
    var items := entry.css.items;
    for i := 0 to |items|
      invariant StylesheetsPresent(files, items, i)
    {
      if items[i].NotText? || items[i].text !in files {
        return false;
      }
    }
    ok := true;
  }

  /** The entry's whole import closure can be walked and its files are on disk. */
  ghost predicate ClosureUsable(m: Manifest, files: set<string>, root: string) {
    !Broken(m, root) && forall k :: Reaches(m, root, k) ==> AssetsPresent(files, m[k])
  }

  method WalkAndVerify(m: Manifest, files: set<string>, root: string) returns (ok: bool)
    ensures ok <==> ClosureUsable(m, files, root)
  {
    var walked := WalkManifestImports(m, root);
    if walked.Err? {
      return false;
    }
    var assets := walked.value;
    for i := 0 to |assets|
      invariant forall j :: 0 <= j < i ==> AssetsPresent(files, m[assets[j].0])
    {
      assert assets[i].0 in KeysOf(assets);
      ok := VerifyAssetPaths(files, assets[i].1);
      if !ok {
        return false;
      }
    }
    forall k | Reaches(m, root, k)
      ensures AssetsPresent(files, m[k])
    {
      assert k in KeysOf(assets);
    }
    ok := true;
  }

  function EntryKey(entrypoint: string): string {
    "entrypoints/" + entrypoint + ".tsx"
  }

  method EntryIsUsable(m: Manifest, files: set<string>, entrypoint: string) returns (ok: bool)
    ensures ok <==> ClosureUsable(m, files, EntryKey(entrypoint))
  {
    var key := EntryKey(entrypoint);
    if key !in m || m[key].NotADict? {
      ReachesSelf(m, key);
      return false;
    }
    ok := WalkAndVerify(m, files, key);
  }

  /** What the loop of the tree check demands of each manifest item. */
  predicate ItemUsable(m: Manifest, files: set<string>, key: string)
    requires key in m
  {
    && AssetsPresent(files, m[key])
    && match m[key].imports
       case NoImports => true
       case NotAList => false
       case ImportList(items) => forall i :: 0 <= i < |items| ==> items[i].Text? && items[i].text in m
  }

  ghost predicate AllItemsUsable(m: Manifest, files: set<string>) {
    forall k :: k in m ==> ItemUsable(m, files, k)
  }

  /** Once the loop has passed, the walk and the path check from any key succeed exactly when the key is present. */
  lemma ItemChecksSuffice(m: Manifest, files: set<string>, root: string)
    requires AllItemsUsable(m, files)
    ensures ClosureUsable(m, files, root) <==> root in m
  {
    if root in m {
      forall k | Reaches(m, root, k)
        ensures WalkableKey(m, k) && AssetsPresent(files, m[k])
      {
        var p :| IsPath(m, p) && p[0] == root && p[|p| - 1] == k;
        forall u, v | u in m.Keys && Links(m, u, v)
          ensures v in m.Keys
        {
          assert ItemUsable(m, files, u);
        }
        ClosedHoldsPath(m, m.Keys, p);
        assert ItemUsable(m, files, k);
      }
    } else {
      ReachesSelf(m, root);
    }
  }

  method ItemIsUsable(m: Manifest, files: set<string>, key: string) returns (ok: bool)
    requires key in m
    ensures ok <==> ItemUsable(m, files, key)
  {
    if m[key].NotADict? {
      return false;
    }
    ok := VerifyAssetPaths(files, m[key]);
    if !ok || m[key].imports.NotAList? {
      return false;
    }
    var items := ImportItems(m[key]);
    for i := 0 to |items|
      invariant forall j :: 0 <= j < i ==> items[j].Text? && items[j].text in m
    {
      if items[i].NotText? || items[i].text !in m {
        return false;
      }
    }
    ok := true;
  }

  /** The tree check on a decoded manifest; an empty entrypoint stands for none given. */
  method ManifestTreeIsUsable(m: Manifest, files: set<string>, entrypoint: string) returns (usable: bool)
    ensures usable <==> AllItemsUsable(m, files) && (entrypoint != "" ==> "entrypoints/" + entrypoint + ".tsx" in m)
  {
    var remaining := m.Keys;
    while remaining != {}
      invariant remaining <= m.Keys
      invariant forall k :: k in m && k !in remaining ==> ItemUsable(m, files, k)
      decreases remaining
    {
      var key :| key in remaining;
      remaining := remaining - {key};
      var ok := ItemIsUsable(m, files, key);
      if !ok {
        return false;
      }
    }
    usable := true;
    if entrypoint != "" {
      usable := EntryIsUsable(m, files, entrypoint);
      ItemChecksSuffice(m, files, EntryKey(entrypoint));
    }
  }

  // ---------------------------------------------------------- stylesheets

  function CssItems(entry: Entry): seq<Item> {
    if entry.Dict? && entry.css.CssList? then entry.css.items else []
  }

  predicate CssCollectable(entry: Entry) {
    && entry.Dict?
    && !entry.css.TruthyNotList?
    && (entry.css.CssList? ==> forall i :: 0 <= i < |entry.css.items| ==> entry.css.items[i].Text?)
  }

  function TextOf(items: seq<Item>): seq<string>
    requires AllText(items)
  {
    seq(|items|, i requires 0 <= i < |items| => items[i].text)
  }

  /** Every stylesheet the walked entries name, in walk order, repeats included. */
  function AllCss(assets: Assets): seq<string>
    requires forall i :: 0 <= i < |assets| ==> CssCollectable(assets[i].1)
  {
    if assets == [] then [] else
      var last := assets[|assets| - 1].1;
      assert CssCollectable(last);
      AllCss(assets[..|assets| - 1]) + TextOf(CssItems(last))
  }

  /** The sequence without later repeats. */
  function FirstOccurrences(s: seq<string>): seq<string> {
    if s == [] then [] else
      var earlier := FirstOccurrences(s[..|s| - 1]);
      if s[|s| - 1] in earlier then earlier else earlier + [s[|s| - 1]]
  }

  /** A list of sheets is named by the entries of a walked prefix exactly if one of their lists holds it. */
  lemma {:induction false} NamedByEntry(assets: Assets, css: string)
    requires forall i :: 0 <= i < |assets| ==> CssCollectable(assets[i].1)
    ensures css in AllCss(assets) <==> exists i :: 0 <= i < |assets| && assets[i].1.css.CssList? && Text(css) in assets[i].1.css.items
  {
    if assets != [] {
      var n := |assets| - 1;
      NamedByEntry(assets[..n], css);
      TextListed(CssItems(assets[n].1), css);
      assert forall i :: 0 <= i < n ==> assets[..n][i] == assets[i];
    }
  }

  lemma TextListed(items: seq<Item>, text: string)
    requires AllText(items)
    ensures text in TextOf(items) <==> Text(text) in items
  {
    if Text(text) in items {
      var i :| 0 <= i < |items| && items[i] == Text(text);
      assert TextOf(items)[i] == text;
    }
  }

  /** The collected sheets are exactly those that some reachable entry lists. */
  lemma CssListedExactly(m: Manifest, root: string, assets: Assets)
    requires IsImportOrder(m, root, assets) && !Broken(m, root)
    requires forall i :: 0 <= i < |assets| ==> CssCollectable(assets[i].1)
    ensures forall css ::
      css in FirstOccurrences(AllCss(assets)) <==> exists k :: Reaches(m, root, k) && m[k].css.CssList? && Text(css) in m[k].css.items
  {
    forall css
      ensures css in FirstOccurrences(AllCss(assets)) <==> exists k :: Reaches(m, root, k) && m[k].css.CssList? && Text(css) in m[k].css.items
    {
      FirstOccurrencesOrder(AllCss(assets), 0);
      NamedByEntry(assets, css);
      forall i | 0 <= i < |assets|
        ensures Reaches(m, root, assets[i].0) && m[assets[i].0] == assets[i].1
      {
        assert assets[i].0 in KeysOf(assets);
      }
      if k :| Reaches(m, root, k) && m[k].css.CssList? && Text(css) in m[k].css.items {
        assert k in KeysOf(assets);
      }
    }
  }

  /** Position of a sheet in a list of distinct ones. */
  ghost predicate Precedes(list: seq<string>, a: string, b: string) {
    exists i, j :: 0 <= i < j < |list| && list[i] == a && list[j] == b
  }

  /** Appending a new element puts it behind everything that occurred before. */
  lemma NewElementIsLast(early: seq<string>, x: string, y: string)
    requires x in early && y !in early
    ensures Precedes(FirstOccurrences(early + [y]), x, y)
  {
    var late := early + [y];
    assert late[..|late| - 1] == early;
    FirstOccurrencesOrder(early, 0);
    var seen := FirstOccurrences(early);
    var at :| 0 <= at < |seen| && seen[at] == x;
    assert FirstOccurrences(late) == seen + [y];
    assert FirstOccurrences(late)[at] == x && FirstOccurrences(late)[|seen|] == y;
  }

  lemma PrecedesInPrefix(list: seq<string>, longer: seq<string>, x: string, y: string)
    requires Precedes(list, x, y) && list <= longer
    ensures Precedes(longer, x, y)
  {
    var i, j :| 0 <= i < j < |list| && list[i] == x && list[j] == y;
    assert longer[i] == x && longer[j] == y;
  }

  /** Among elements that are new at some point, the list keeps the order in which they then come. */
  lemma FirstOccurrencesKeepOrder(before: seq<string>, own: seq<string>, after: seq<string>, i: nat, j: nat)
    requires i < j < |own| && own[j] !in before && forall k :: 0 <= k < j ==> own[k] != own[j]
    ensures Precedes(FirstOccurrences(before + own + after), own[i], own[j])
  {
    hide FirstOccurrences, Precedes;
    var all := before + own + after;
    var early := before + own[..j];
    assert early[|before| + i] == own[i];
    assert forall k :: 0 <= k < |early| ==> early[k] != own[j];
    NewElementIsLast(early, own[i], own[j]);
    assert all[..|early| + 1] == early + [own[j]];
    FirstOccurrencesOrder(all, |early| + 1);
    PrecedesInPrefix(FirstOccurrences(early + [own[j]]), FirstOccurrences(all), own[i], own[j]);
  }

  /** Two sheets of one entry, the later of them not named before, are listed in the order of its list. */
  lemma SheetsKeepEntryOrder(assets: Assets, n: nat, i: nat, j: nat)
    requires forall k :: 0 <= k < |assets| ==> CssCollectable(assets[k].1)
    requires n < |assets| && CssCollectable(assets[n].1) && assets[n].1.css.CssList? && i < j < |assets[n].1.css.items|
    requires forall k :: 0 <= k < n && CssCollectable(assets[k].1) && assets[k].1.css.CssList? ==>
      assets[n].1.css.items[j] !in assets[k].1.css.items
    requires forall k :: 0 <= k < j ==> assets[n].1.css.items[k] != assets[n].1.css.items[j]
    ensures Precedes(FirstOccurrences(AllCss(assets)), assets[n].1.css.items[i].text, assets[n].1.css.items[j].text)
  {
    var items := assets[n].1.css.items;
    var before, own := AllCss(assets[..n]), TextOf(items);
    var after := AllCssSplits(assets, n + 1);
    assert assets[..n + 1][..n] == assets[..n];
    assert AllCss(assets[..n + 1]) == before + own;
    NamedByEntry(assets[..n], own[j]);
    assert items[j] == Text(own[j]);
    assert forall k :: 0 <= k < j ==> items[k] == Text(own[k]);
    FirstOccurrencesKeepOrder(before, own, after, i, j);
  }

  lemma {:induction false} AllCssSplits(assets: Assets, n: nat) returns (after: seq<string>)
    requires n <= |assets| && forall k :: 0 <= k < |assets| ==> CssCollectable(assets[k].1)
    ensures AllCss(assets) == AllCss(assets[..n]) + after
  {
    if n == |assets| {
      assert assets[..n] == assets;
      after := [];
    } else {
      var last := |assets| - 1;
      var rest := AllCssSplits(assets[..last], n);
      assert assets[..last][..n] == assets[..n];
      after := rest + TextOf(CssItems(assets[last].1));
      assert AllCss(assets[..n]) + rest + TextOf(CssItems(assets[last].1)) == AllCss(assets[..n]) + after;
    }
  }

  /** Each element once, nothing else, and in the order of first occurrence: what a prefix contributes comes first. */
  lemma {:induction false} FirstOccurrencesOrder(s: seq<string>, n: nat)
    requires n <= |s|
    ensures var r := FirstOccurrences(s);
      && (forall x :: x in r <==> x in s)
      && (forall i, j :: 0 <= i < j < |r| ==> r[i] != r[j])
      && FirstOccurrences(s[..n]) <= r
  {
    if n == |s| {
      assert s[..n] == s;
    }
    if s != [] {
      var last := |s| - 1;
      assert s == s[..last] + [s[last]];
      FirstOccurrencesOrder(s[..last], if n < last then n else last);
      if n < |s| {
        assert s[..last][..n] == s[..n];
      }
    }
  }

  method AppendNewCss(items: seq<Item>, found: seq<string>, ghost all: seq<string>) returns (r: Result<seq<string>, AssetFileMissing>)
    requires found == FirstOccurrences(all)
    ensures r.Ok? <==> AllText(items)
    ensures r.Ok? ==> r.value == FirstOccurrences(all + TextOf(items))
  {
    var cssFiles := found;
    assert all + [] == all;
    for i := 0 to |items|
      invariant AllText(items[..i])
      invariant cssFiles == FirstOccurrences(all + TextOf(items[..i]))
    {
      if items[i].NotText? {
        return Err(AssetFileMissing);
      }
      ghost var soFar := all + TextOf(items[..i]);
      ghost var next := all + TextOf(items[..i + 1]);
      assert next[..|next| - 1] == soFar && next[|next| - 1] == items[i].text;
      if items[i].text !in cssFiles {
        cssFiles := cssFiles + [items[i].text];
      }
    }
    assert items[..|items|] == items;
    r := Ok(cssFiles);
  }

  method CollectCssFiles(m: Manifest, root: string) returns (r: Result<seq<string>, AssetFileMissing>, ghost assets: Assets)
    ensures r.Err? <==> Broken(m, root) || exists k :: Reaches(m, root, k) && !CssCollectable(m[k])
    ensures r.Ok? ==>
      && IsImportOrder(m, root, assets)
      && (forall i :: 0 <= i < |assets| ==> CssCollectable(assets[i].1))
      && r.value == FirstOccurrences(AllCss(assets))
      && (forall css :: css in r.value <==> exists k :: Reaches(m, root, k) && m[k].css.CssList? && Text(css) in m[k].css.items)
  {
    assets := [];
    var walked := WalkManifestImports(m, root);
    if walked.Err? {
      return Err(AssetFileMissing), [];
    }
    assets := walked.value;
    var cssFiles: seq<string> := [];
    for i := 0 to |walked.value|
      invariant forall j :: 0 <= j < i ==> CssCollectable(walked.value[j].1)
      invariant cssFiles == FirstOccurrences(AllCss(walked.value[..i]))
    {
      var entry := walked.value[i].1;
      assert walked.value[i].0 in KeysOf(walked.value);
      if entry.css.TruthyNotList? {
        return Err(AssetFileMissing), assets;
      }
      assert walked.value[..i + 1][..i] == walked.value[..i];
      var appended := AppendNewCss(CssItems(entry), cssFiles, AllCss(walked.value[..i]));
      if appended.Err? {
        return Err(AssetFileMissing), assets;
      }
      cssFiles := appended.value;
    }
    assert walked.value[..|walked.value|] == walked.value;
    forall k | Reaches(m, root, k)
      ensures CssCollectable(m[k])
    {
      assert k in KeysOf(walked.value);
    }
    CssListedExactly(m, root, assets);
    r := Ok(cssFiles);
  }

  /**
    After the walk-and-verify loop has passed, collecting the stylesheets cannot fail: they are
    those of the closure in import order, each listed once where it first occurs, and all on disk.
   */
  method EntryStylesheets(m: Manifest, files: set<string>, root: string) returns (r: Result<seq<string>, AssetFileMissing>, ghost assets: Assets)
    ensures r.Ok? <==> ClosureUsable(m, files, root)
    ensures r.Ok? ==>
      && IsImportOrder(m, root, assets)
      && (forall i :: 0 <= i < |assets| ==> CssCollectable(assets[i].1))
      && r.value == FirstOccurrences(AllCss(assets))
      && (forall css :: css in r.value <==> exists k :: Reaches(m, root, k) && m[k].css.CssList? && Text(css) in m[k].css.items)
      && (forall i, j :: 0 <= i < j < |r.value| ==> r.value[i] != r.value[j])
      && (forall css :: css in r.value ==> css in files)
  {
    assets := [];
    var ok := WalkAndVerify(m, files, root);
    if !ok {
      return Err(AssetFileMissing), [];
    }
    r, assets := CollectCssFiles(m, root);
    assert forall k :: Reaches(m, root, k) ==> AssetsPresent(files, m[k]) && CssCollectable(m[k]);
    AllCssPresent(m, files, root, assets, assets);
    FirstOccurrencesOrder(AllCss(assets), 0);
  }

  lemma {:induction false} AllCssPresent(m: Manifest, files: set<string>, root: string, assets: Assets, prefix: Assets)
    requires ClosureUsable(m, files, root) && IsImportOrder(m, root, assets) && prefix <= assets
    requires forall i :: 0 <= i < |assets| ==> CssCollectable(assets[i].1)
    ensures forall css :: css in AllCss(prefix) ==> css in files
  {
    if prefix != [] {
      var n := |prefix| - 1;
      AllCssPresent(m, files, root, assets, prefix[..n]);
      assert prefix[n] == assets[n] && assets[n].0 in KeysOf(assets);
      assert AssetsPresent(files, assets[n].1);
    }
  }
}
