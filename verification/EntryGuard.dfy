/**
 The build guard that keeps Electron out of the module graphs of plain-Node and worker-thread
 entries: a depth-first collection over a chunk graph that may be cyclic and may name chunks that are
 not in the bundle, and a scan over all guarded entries that shares one memo of chunks found clean.
 Behind it, the packages that the daemon's graph requires are checked against those mirrored for it.
 What a chunk's code requires, and what is built into Node, are parameters.
 */
module EntryGuard {
  datatype Chunk = Chunk(fileName: string, name: string, isEntry: bool,
                         imports: seq<string>, dynamicImports: seq<string>, code: string)
  type Graph = map<string, Chunk>
  datatype Runtime = PlainNode | WorkerThread
  datatype Verdict =
    | Clean
    | Leak(entryName: string, fileName: string, runtime: Runtime)
    | Unmirrored(fileName: string, specifier: string)

  // ---------- reachability ----------

  function Edges(g: Graph, f: string): seq<string> {
    if f in g then g[f].imports + g[f].dynamicImports else []
  }

  ghost predicate IsPath(g: Graph, p: seq<string>) {
    p != [] && forall i :: 0 <= i < |p| - 1 ==> p[i + 1] in Edges(g, p[i])
  }

  ghost predicate Reachable(g: Graph, a: string, b: string) {
    exists p :: IsPath(g, p) && p[0] == a && p[|p| - 1] == b
  }

  /** The names an unbounded import graph can ever lead to. */
  function Universe(g: Graph, entry: string): set<string> {
    {entry} + set f, e | f in g && e in Edges(g, f) :: e
  }

  lemma {:induction false} ReachSelf(g: Graph, a: string)
    ensures Reachable(g, a, a)
  {
    assert IsPath(g, [a]) && [a][0] == a;
  }

  lemma {:induction false} ReachNext(g: Graph, a: string, b: string, c: string)
    requires Reachable(g, a, b) && c in Edges(g, b)
    ensures Reachable(g, a, c)
  {
    var p :| IsPath(g, p) && p[0] == a && p[|p| - 1] == b;
    var q := p + [c];
    forall i | 0 <= i < |q| - 1 ensures q[i + 1] in Edges(g, q[i]) {
      assert i < |p| - 1 ==> p[i + 1] in Edges(g, p[i]);
    }
    assert IsPath(g, q) && q[0] == a && q[|q| - 1] == c;
  }

  ghost predicate Closed(g: Graph, seen: set<string>) {
    forall f, e :: f in seen && e in Edges(g, f) ==> e in seen
  }

  /** A set closed under imports that holds the start of a path holds all of it. */
  lemma {:induction false} ClosedHoldsPath(g: Graph, seen: set<string>, p: seq<string>)
    requires Closed(g, seen) && IsPath(g, p) && p[0] in seen
    ensures p[|p| - 1] in seen
    decreases |p|
  {
    if |p| > 1 {
      var init := p[..|p| - 1];
      forall i | 0 <= i < |init| - 1 ensures init[i + 1] in Edges(g, init[i]) {
        assert p[i + 1] in Edges(g, p[i]);
      }
      ClosedHoldsPath(g, seen, init);
      assert p[|p| - 2 + 1] in Edges(g, p[|p| - 2]);
    }
  }

  lemma {:induction false} ClosedHoldsReachable(g: Graph, seen: set<string>, a: string)
    requires Closed(g, seen) && a in seen
    ensures forall b :: Reachable(g, a, b) ==> b in seen
  {
    forall b | Reachable(g, a, b) ensures b in seen {
      var p :| IsPath(g, p) && p[0] == a && p[|p| - 1] == b;
      ClosedHoldsPath(g, seen, p);
    }
  }

  /** A chunk is reached from itself, and else by a static or dynamic import of one that is reached. */
  lemma {:induction false} ReachedByImports(g: Graph, a: string, b: string)
    ensures Reachable(g, a, b)
            <==> a == b || exists f <- g :: Reachable(g, a, f) && (b in g[f].imports || b in g[f].dynamicImports)
  {
    ReachSelf(g, a);
    if f :| f in g && Reachable(g, a, f) && (b in g[f].imports || b in g[f].dynamicImports) {
      ReachNext(g, a, f, b);
    }
    if Reachable(g, a, b) && a != b {
      var p :| IsPath(g, p) && p[0] == a && p[|p| - 1] == b;
      var n := |p| - 1;
      var init := p[..n];
      forall i | 0 <= i < n - 1 ensures init[i + 1] in Edges(g, init[i]) {
        assert p[i + 1] in Edges(g, p[i]);
      }
      assert IsPath(g, init) && init[0] == a && init[n - 1] == p[n - 1];
      assert p[(n - 1) + 1] in Edges(g, p[n - 1]);
    }
  }

  // ---------- collecting ----------

  /** Chunks are filed under their own names. */
  predicate Keyed(g: Graph) { forall f <- g :: g[f].fileName == f }

  /** Exactly the chunks of the bundle that the entry reaches, each once. */
  ghost predicate Collected(g: Graph, entry: string, chunks: seq<Chunk>) {
    && (forall i, j :: 0 <= i < j < |chunks| ==> chunks[i] != chunks[j])
    && (forall c <- chunks :: c.fileName in g && g[c.fileName] == c && Reachable(g, entry, c.fileName))
    && (forall f :: f in g && Reachable(g, entry, f) ==> g[f] in chunks)
  }

  /** Imports of what was seen are seen or still to do. */
  ghost predicate Frontier(g: Graph, seen: set<string>, stack: seq<string>) {
    forall f, e :: f in seen && e in Edges(g, f) ==> e in seen || e in stack
  }

  /** What the collection has done and still has to do. */
  ghost predicate Exploring(g: Graph, entry: string, seen: set<string>, stack: seq<string>, reachable: seq<Chunk>) {
    && (entry in seen || entry in stack)
    && (forall f <- stack :: f in Universe(g, entry) && Reachable(g, entry, f))
    && (forall f <- seen :: f in Universe(g, entry) && Reachable(g, entry, f))
    && Frontier(g, seen, stack)
    && (forall c <- reachable :: c.fileName in seen && c.fileName in g && g[c.fileName] == c)
    && (forall f :: f in seen && f in g ==> g[f] in reachable)
    && (forall i, j :: 0 <= i < j < |reachable| ==> reachable[i] != reachable[j])
  }

  lemma {:induction false} ExploringStarts(g: Graph, entry: string)
    ensures Exploring(g, entry, {}, [entry], [])
  {
    ReachSelf(g, entry);
  }

  lemma {:induction false} SkipSeen(
    g: Graph, entry: string, seen: set<string>, stack: seq<string>, top: string, reachable: seq<Chunk>)
    requires Exploring(g, entry, seen, stack + [top], reachable) && top in seen
    ensures Exploring(g, entry, seen, stack, reachable)
  {
    assert forall f <- stack :: f in stack + [top];
    assert forall f <- stack + [top] :: f == top || f in stack;
  }

  lemma {:induction false} SkipMissing(
    g: Graph, entry: string, seen: set<string>, stack: seq<string>, top: string, reachable: seq<Chunk>)
    requires Exploring(g, entry, seen, stack + [top], reachable) && top !in g
    ensures top in Universe(g, entry)
    ensures Exploring(g, entry, seen + {top}, stack, reachable)
  {
    assert (stack + [top])[|stack|] == top;
    assert forall f <- stack :: f in stack + [top];
    assert forall f <- stack + [top] :: f == top || f in stack;
  }

  lemma {:induction false} VisitFrontier(g: Graph, seen: set<string>, stack: seq<string>, top: string)
    requires Frontier(g, seen, stack + [top])
    ensures Frontier(g, seen + {top}, stack + Edges(g, top))
  {
    assert forall f <- stack + [top] :: f == top || f in stack;
  }

  lemma {:induction false} VisitChunk(
    g: Graph, entry: string, seen: set<string>, stack: seq<string>, top: string, reachable: seq<Chunk>)
    requires Keyed(g) && top in g && top !in seen && Exploring(g, entry, seen, stack + [top], reachable)
    ensures top in Universe(g, entry)
    ensures Exploring(g, entry, seen + {top}, stack + Edges(g, top), reachable + [g[top]])
  {
    hide Reachable, Frontier;
    assert (stack + [top])[|stack|] == top;
    assert forall f <- stack :: f in stack + [top];
    VisitFrontier(g, seen, stack, top);
    forall e | e in Edges(g, top) ensures e in Universe(g, entry) && Reachable(g, entry, e) {
      ReachNext(g, entry, top, e);
    }
  }

  lemma {:induction false} ExploringEnds(g: Graph, entry: string, seen: set<string>, reachable: seq<Chunk>)
    requires Exploring(g, entry, seen, [], reachable)
    ensures Collected(g, entry, reachable)
  {
    hide Reachable, Universe;
    assert Closed(g, seen) by {
      assert Frontier(g, seen, []);
    }
    ClosedHoldsReachable(g, seen, entry);
    assert entry in seen;
  }

  method CollectReachableChunks(entry: string, g: Graph) returns (reachable: seq<Chunk>)
    requires Keyed(g)
    ensures Collected(g, entry, reachable)
  {
    hide Exploring, Collected, Universe;
    var seen: set<string> := {};
    reachable := [];
    var stack := [entry];
    ExploringStarts(g, entry);
    while stack != []
      invariant Exploring(g, entry, seen, stack, reachable)
      decreases Universe(g, entry) - seen, |stack|
    {
      var fileName := stack[|stack| - 1];
      assert stack == stack[..|stack| - 1] + [fileName];
      stack := stack[..|stack| - 1];
      if fileName in seen {
        SkipSeen(g, entry, seen, stack, fileName, reachable);
        continue;
      }
      if fileName !in g {
        SkipMissing(g, entry, seen, stack, fileName, reachable);
      } else {
        VisitChunk(g, entry, seen, stack, fileName, reachable);
      }
      assert fileName in Universe(g, entry) - seen;
      seen := seen + {fileName};
      if fileName !in g {
        continue;
      }
      var chunk := g[fileName];
      reachable := reachable + [chunk];
      stack := stack + (chunk.imports + chunk.dynamicImports);
    }
    ExploringEnds(g, entry, seen, reachable);
  }

  // ---------- the scan ----------

  /** The memo holds, for chunks scanned before, code that was found not to require Electron. */
  predicate SoundMemo(memo: map<string, string>, requiresElectron: string -> bool) {
    forall f <- memo :: !requiresElectron(memo[f])
  }

  /** No chunk that the entry reaches requires Electron. */
  ghost predicate ElectronFree(g: Graph, entry: string, requiresElectron: string -> bool) {
    forall f :: f in g && Reachable(g, entry, f) ==> !requiresElectron(g[f].code)
  }

  /** A leak names a chunk that the entry does reach and that does require Electron. */
  ghost predicate TrueLeak(g: Graph, entry: string, fileName: string, requiresElectron: string -> bool) {
    fileName in g && Reachable(g, entry, fileName) && requiresElectron(g[fileName].code)
  }

  method AssertNoElectronRequire(
    entryName: string, entry: string, g: Graph, memo: map<string, string>, runtime: Runtime,
    requiresElectron: string -> bool) returns (verdict: Verdict, memo': map<string, string>)
    requires Keyed(g) && SoundMemo(memo, requiresElectron)
    ensures SoundMemo(memo', requiresElectron)
    ensures verdict == Clean <==> ElectronFree(g, entry, requiresElectron)
    ensures !verdict.Unmirrored?
    ensures verdict.Leak? ==>
              && verdict.entryName == entryName && verdict.runtime == runtime
              && TrueLeak(g, entry, verdict.fileName, requiresElectron)
  {
    memo' := memo;
    var chunks := CollectReachableChunks(entry, g);
    for k := 0 to |chunks|
      invariant SoundMemo(memo', requiresElectron)
      invariant forall i :: 0 <= i < k ==> !requiresElectron(chunks[i].code)
    {
      var chunk := chunks[k];
      assert chunk in chunks;
      if chunk.fileName in memo' && memo'[chunk.fileName] == chunk.code {
        continue;
      }
      if requiresElectron(chunk.code) {
        return Leak(entryName, chunk.fileName, runtime), memo';
      }
      memo' := memo'[chunk.fileName := chunk.code];
    }
    forall f | f in g && Reachable(g, entry, f) ensures !requiresElectron(g[f].code) {
      var i :| 0 <= i < |chunks| && chunks[i] == g[f];
    }
    return Clean, memo';
  }

  // ---------- the whole bundle ----------

  /** Later chunks replace earlier ones of the same name. */
  function ByFileName(chunks: seq<Chunk>): Graph {
    if chunks == [] then map[]
    else ByFileName(chunks[..|chunks| - 1])[chunks[|chunks| - 1].fileName := chunks[|chunks| - 1]]
  }

  function EntryByName(chunks: seq<Chunk>): map<string, Chunk> {
    if chunks == [] then map[]
    else
      var last, earlier := chunks[|chunks| - 1], EntryByName(chunks[..|chunks| - 1]);
      if last.isEntry && last.name != "" then earlier[last.name := last] else earlier
  }

  lemma {:induction false} BundleIsKeyed(chunks: seq<Chunk>)
    ensures Keyed(ByFileName(chunks))
  {
    if chunks != [] {
      BundleIsKeyed(chunks[..|chunks| - 1]);
    }
  }

  predicate IsEntry(c: Chunk, name: string) { c.isEntry && c.name == name && name != "" }

  /** An entry of a name is the last chunk that is one. */
  lemma {:induction false} EntriesAreLast(chunks: seq<Chunk>, name: string)
    ensures name in EntryByName(chunks) <==> exists c <- chunks :: IsEntry(c, name)
    ensures name in EntryByName(chunks) ==>
              exists k :: 0 <= k < |chunks| && chunks[k] == EntryByName(chunks)[name] && IsEntry(chunks[k], name)
                          && forall j :: k < j < |chunks| ==> !IsEntry(chunks[j], name)
  {
    if chunks != [] {
      var init, last := chunks[..|chunks| - 1], chunks[|chunks| - 1];
      EntriesAreLast(init, name);
      assert chunks == init + [last];
      if IsEntry(last, name) {
        assert chunks[|init|] == EntryByName(chunks)[name];
      } else if name in EntryByName(init) {
        var k :| 0 <= k < |init| && init[k] == EntryByName(init)[name] && IsEntry(init[k], name)
                 && forall j :: k < j < |init| ==> !IsEntry(init[j], name);
        assert chunks[k] == EntryByName(chunks)[name];
      }
    }
  }

  /** And the chunk of a file name the last one of that name. */
  lemma {:induction false} FilesAreLast(chunks: seq<Chunk>, f: string)
    ensures f in ByFileName(chunks) <==> exists c <- chunks :: c.fileName == f
    ensures f in ByFileName(chunks) ==>
              exists k :: 0 <= k < |chunks| && chunks[k] == ByFileName(chunks)[f] && chunks[k].fileName == f
                          && forall j :: k < j < |chunks| ==> chunks[j].fileName != f
  {
    if chunks != [] {
      var init, last := chunks[..|chunks| - 1], chunks[|chunks| - 1];
      FilesAreLast(init, f);
      assert chunks == init + [last];
      if last.fileName == f {
        assert chunks[|init|] == ByFileName(chunks)[f];
      } else if f in ByFileName(init) {
        var k :| 0 <= k < |init| && init[k] == ByFileName(init)[f] && init[k].fileName == f
                 && forall j :: k < j < |init| ==> init[j].fileName != f;
        assert chunks[k] == ByFileName(chunks)[f];
      }
    }
  }

  /** A guarded entry passes when the bundle does not hold it or its graph is free of Electron. */
  ghost predicate Passes(chunks: seq<Chunk>, entryName: string, requiresElectron: string -> bool) {
    entryName in EntryByName(chunks) ==>
      ElectronFree(ByFileName(chunks), EntryByName(chunks)[entryName].fileName, requiresElectron)
  }

  /** Scans the entries of one kind in order, with the memo of those before. */
  method ScanEntries(
    chunks: seq<Chunk>, names: seq<string>, byFileName: Graph, entryByName: map<string, Chunk>,
    memo: map<string, string>, runtime: Runtime, requiresElectron: string -> bool)
    returns (verdict: Verdict, memo': map<string, string>)
    requires byFileName == ByFileName(chunks) && entryByName == EntryByName(chunks)
    requires SoundMemo(memo, requiresElectron)
    ensures SoundMemo(memo', requiresElectron)
    ensures verdict == Clean <==> forall name <- names :: Passes(chunks, name, requiresElectron)
    ensures !verdict.Unmirrored? && (verdict.Leak? ==> verdict.runtime == runtime)
    ensures verdict.Leak? ==> IsFirstLeak(chunks, names, verdict, runtime, requiresElectron)
  {
    hide ElectronFree, TrueLeak, SoundMemo, ByFileName, EntryByName, Keyed;
    memo' := memo;
    BundleIsKeyed(chunks);
    for k := 0 to |names|
      invariant SoundMemo(memo', requiresElectron)
      invariant forall i :: 0 <= i < k ==> Passes(chunks, names[i], requiresElectron)
    {
      if names[k] in entryByName {
        verdict, memo' := AssertNoElectronRequire(
          names[k], entryByName[names[k]].fileName, byFileName, memo', runtime, requiresElectron);
        if verdict.Leak? {
          assert !Passes(chunks, names[k], requiresElectron);
          return;
        }
      }
    }
    verdict := Clean;
  }

  /** The verdict names the first failing entry of a list and a chunk it reaches. */
  ghost predicate IsFirstLeak(
    chunks: seq<Chunk>, names: seq<string>, verdict: Verdict, runtime: Runtime, requiresElectron: string -> bool)
    requires verdict.Leak?
  {
    exists k ::
      && 0 <= k < |names| && names[k] == verdict.entryName && verdict.runtime == runtime
      && (forall i :: 0 <= i < k ==> Passes(chunks, names[i], requiresElectron))
      && names[k] in EntryByName(chunks)
      && TrueLeak(ByFileName(chunks), EntryByName(chunks)[names[k]].fileName, verdict.fileName, requiresElectron)
  }

  // ---------- the daemon's packages ----------

  const DAEMON: string := "daemon-entry"
  const MIRRORED: seq<string> := ["@hiveward/process-host", "node-pty", "@vscode/windows-process-tree"]

  /** A specifier up to its n-th slash, or all of it. */
  function FirstParts(specifier: string, n: nat): string
    requires n > 0
  {
    if specifier == "" then ""
    else if specifier[0] != '/' then [specifier[0]] + FirstParts(specifier[1..], n)
    else if n == 1 then ""
    else "/" + FirstParts(specifier[1..], n - 1)
  }

  /** The package of a specifier: a scoped name has two parts. */
  function PackageOf(specifier: string): string {
    FirstParts(specifier, if specifier != "" && specifier[0] == '@' then 2 else 1)
  }

  /** No slash, and followed by nothing or by one. */
  predicate IsPart(part: string, rest: string) { '/' !in part && (rest == "" || rest[0] == '/') }

  lemma {:induction false} OnePart(part: string, rest: string, n: nat)
    requires IsPart(part, rest) && n > 0
    ensures FirstParts(part + rest, n)
         == part + if rest == "" || n == 1 then "" else "/" + FirstParts(rest[1..], n - 1)
  {
    if part == "" {
      assert part + rest == rest;
    } else {
      assert (part + rest)[1..] == part[1..] + rest && forall c <- part[1..] :: c in part;
      assert part[0] in part;
      OnePart(part[1..], rest, n);
      assert part == [part[0]] + part[1..];
    }
  }

  /** A package is the first part of a specifier, and of a scoped one the scope with the part behind it. */
  lemma {:induction false} PackagesAre(scope: string, name: string, rest: string)
    requires IsPart(name, rest) && '/' !in scope
    ensures (name == "" || name[0] != '@') && name + rest != "" ==> PackageOf(name + rest) == name
    ensures PackageOf("@" + scope + "/" + name + rest) == "@" + scope + "/" + name
    ensures PackageOf("@" + scope) == "@" + scope
  {
    hide FirstParts;
    OnePart(name, rest, 1);
    var scoped := "@" + scope;
    assert scoped[0] == '@' && '/' !in scoped;
    OnePart(scoped, "/" + (name + rest), 2);
    assert scoped + "/" + name + rest == scoped + ("/" + (name + rest));
    assert ("/" + (name + rest))[1..] == name + rest;
    OnePart(scoped, "", 2);
    assert scoped + "" == scoped;
    assert name + "" == name;
  }

  /** What code requires besides files of its own, and what Node has built in. */
  datatype Externals = Externals(bareRequires: string -> seq<string>, isBuiltin: string -> bool)

  predicate Allowed(specifier: string, x: Externals) {
    "node:" <= specifier || x.isBuiltin(specifier) || PackageOf(specifier) in MIRRORED
  }

  /** Built-in modules pass, and of the packages three, with what lies in them, and no other. */
  lemma {:induction false} ThreePackagesPass(scope: string, name: string, rest: string, x: Externals)
    requires IsPart(name, rest) && '/' !in scope
    ensures Allowed("node:" + name, x) && (x.isBuiltin(name) ==> Allowed(name, x))
    ensures var specifier := name + rest;
            specifier != "" && (name == "" || name[0] != '@') && !("node:" <= specifier) && !x.isBuiltin(specifier) ==>
              (Allowed(specifier, x) <==> name == "node-pty")
    ensures var specifier := "@" + scope + "/" + name + rest;
            !x.isBuiltin(specifier) ==>
              (Allowed(specifier, x) <==> (scope == "hiveward" && name == "process-host")
                                          || (scope == "vscode" && name == "windows-process-tree"))
  {
    hide PackageOf;
    PackagesAre(scope, name, rest);
    assert "node:" <= "node:" + name;
    assert ("@" + scope + "/" + name + rest)[0] == '@';
    ScopedPackages(scope, name);
  }

  lemma {:induction false} ScopedPackages(scope: string, name: string)
    requires '/' !in scope
    ensures var package := "@" + scope + "/" + name;
            package in MIRRORED <==> (scope == "hiveward" && name == "process-host")
                                     || (scope == "vscode" && name == "windows-process-tree")
  {
    var package := "@" + scope + "/" + name;
    assert package[0] == '@';
    SameScoped(scope, name, "hiveward", "process-host");
    SameScoped(scope, name, "vscode", "windows-process-tree");
    assert "@hiveward/process-host" == "@" + "hiveward" + "/" + "process-host";
    assert "@vscode/windows-process-tree" == "@" + "vscode" + "/" + "windows-process-tree";
  }

  lemma {:induction false} SameScoped(a: string, b: string, c: string, d: string)
    requires '/' !in a && '/' !in c
    ensures "@" + a + "/" + b == "@" + c + "/" + d <==> a == c && b == d
  {
    var left, right := "@" + a + "/" + b, "@" + c + "/" + d;
    assert left[|a| + 1] == '/' && right[|c| + 1] == '/';
    assert forall i :: 1 <= i <= |a| ==> left[i] == a[i - 1] && left[i] != '/';
    assert forall i :: 1 <= i <= |c| ==> right[i] == c[i - 1] && right[i] != '/';
    if left == right {
      assert |a| == |c|;
      assert a == left[1..|a| + 1] && c == right[1..|c| + 1];
      assert b == left[|a| + 2..] && d == right[|c| + 2..];
    }
  }

  predicate OnlyMirrored(code: string, x: Externals) {
    forall specifier <- x.bareRequires(code) :: Allowed(specifier, x)
  }

  /** Every chunk of the bundle that the daemon's entry reaches requires mirrored packages only. */
  ghost predicate DaemonMirrored(chunks: seq<Chunk>, x: Externals) {
    DAEMON in EntryByName(chunks) ==> GraphMirrored(ByFileName(chunks), EntryByName(chunks)[DAEMON].fileName, x)
  }

  ghost predicate GraphMirrored(g: Graph, entry: string, x: Externals) {
    forall f :: f in g && Reachable(g, entry, f) ==> OnlyMirrored(g[f].code, x)
  }

  method AssertDaemonExternalsAreMirrored(entry: string, g: Graph, x: Externals) returns (verdict: Verdict)
    requires Keyed(g)
    ensures verdict == Clean <==> GraphMirrored(g, entry, x)
    ensures !verdict.Leak?
    ensures verdict.Unmirrored? ==>
              && verdict.fileName in g && Reachable(g, entry, verdict.fileName)
              && verdict.specifier in x.bareRequires(g[verdict.fileName].code) && !Allowed(verdict.specifier, x)
  {
    hide Reachable, PackageOf;
    var chunks := CollectReachableChunks(entry, g);
    for k := 0 to |chunks|
      invariant forall i :: 0 <= i < k ==> OnlyMirrored(chunks[i].code, x)
    {
      assert chunks[k] in chunks;
      var specifiers := x.bareRequires(chunks[k].code);
      for j := 0 to |specifiers|
        invariant forall i :: 0 <= i < j ==> Allowed(specifiers[i], x)
      {
        if !("node:" <= specifiers[j] || x.isBuiltin(specifiers[j])) {
          if PackageOf(specifiers[j]) !in MIRRORED {
            assert specifiers[j] in specifiers && !Allowed(specifiers[j], x);
            assert !OnlyMirrored(g[chunks[k].fileName].code, x);
            return Unmirrored(chunks[k].fileName, specifiers[j]);
          }
        }
      }
    }
    forall f | f in g && Reachable(g, entry, f) ensures OnlyMirrored(g[f].code, x) {
      var i :| 0 <= i < |chunks| && chunks[i] == g[f];
    }
    return Clean;
  }

  // ---------- the hook ----------

  method FileChunks(chunks: seq<Chunk>) returns (byFileName: Graph, entryByName: map<string, Chunk>)
    ensures byFileName == ByFileName(chunks) && entryByName == EntryByName(chunks)
  {
    byFileName, entryByName := map[], map[];
    for k := 0 to |chunks|
      invariant byFileName == ByFileName(chunks[..k]) && entryByName == EntryByName(chunks[..k])
    {
      assert chunks[..k + 1][..k] == chunks[..k];
      byFileName := byFileName[chunks[k].fileName := chunks[k]];
      if chunks[k].isEntry && chunks[k].name != "" {
        entryByName := entryByName[chunks[k].name := chunks[k]];
      }
    }
    assert chunks[..|chunks|] == chunks;
  }

  ghost predicate AllPass(chunks: seq<Chunk>, names: seq<string>, requiresElectron: string -> bool) {
    forall name <- names :: Passes(chunks, name, requiresElectron)
  }

  /**
   Outside watch mode the memoised scan passes exactly when no guarded entry in the bundle reaches an
   Electron require and the daemon's graph requires mirrored packages only.
   */
  method WriteBundle(
    watchMode: bool, chunks: seq<Chunk>, plainNames: seq<string>, workerNames: seq<string>,
    requiresElectron: string -> bool, x: Externals)
    returns (verdict: Verdict)
    ensures verdict == Clean <==>
              || watchMode
              || (AllPass(chunks, plainNames, requiresElectron) && AllPass(chunks, workerNames, requiresElectron)
                  && DaemonMirrored(chunks, x))
    ensures verdict.Leak? && verdict.runtime == PlainNode ==>
              IsFirstLeak(chunks, plainNames, verdict, PlainNode, requiresElectron)
    ensures verdict.Leak? && verdict.runtime == WorkerThread ==>
              && IsFirstLeak(chunks, workerNames, verdict, WorkerThread, requiresElectron)
              && AllPass(chunks, plainNames, requiresElectron)
    ensures verdict.Unmirrored? ==>
              AllPass(chunks, plainNames, requiresElectron) && AllPass(chunks, workerNames, requiresElectron)
  {
    hide Passes, IsFirstLeak, GraphMirrored;
    if watchMode {
      return Clean;
    }
    var byFileName, entryByName := FileChunks(chunks);
    var memo: map<string, string> := map[];
    verdict, memo := ScanEntries(chunks, plainNames, byFileName, entryByName, memo, PlainNode, requiresElectron);
    if verdict.Leak? {
      return;
    }
    verdict, memo := ScanEntries(chunks, workerNames, byFileName, entryByName, memo, WorkerThread, requiresElectron);
    if verdict.Leak? {
      return;
    }
    BundleIsKeyed(chunks);
    if DAEMON in entryByName {
      verdict := AssertDaemonExternalsAreMirrored(entryByName[DAEMON].fileName, byFileName, x);
    }
  }
}
