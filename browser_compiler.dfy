/**
 * The in-browser compiler of the playground (src/utils/browserCompiler.ts):
 * relative path resolution, the virtual-file plugin's resolve and load
 * hooks, entry-point selection, the loader table and the error shape of
 * `compileFiles`. The esbuild engine itself is a parameter.
 */
module BrowserCompiler {
  import opened Wrappers
  import opened Strings

  // ---------------------------------------------------------------------
  // Path resolution (`resolvePath`)
  // ---------------------------------------------------------------------

  /** Every piece is a non-empty segment without a slash. */
  ghost predicate Clean(parts: seq<string>) {
    forall i :: 0 <= i < |parts| ==> parts[i] != "" && '/' !in parts[i]
  }

  /** `xs.filter(Boolean)` on strings: drops the empty ones. */
  function NonEmpty(xs: seq<string>): (r: seq<string>)
    ensures forall i :: 0 <= i < |r| ==> r[i] != "" && r[i] in xs
    ensures forall x :: x in xs && x != "" ==> x in r
  {
    if xs == [] then [] else (if xs[0] == "" then [] else [xs[0]]) + NonEmpty(xs[1..])
  }

  /** `s.split('/').filter(Boolean)`: the segments of a path. */
  function Segments(s: string): (r: seq<string>)
    ensures Clean(r)
    ensures forall i :: 0 <= i < |r| ==> r[i] in SplitOn(s, '/')
    ensures forall x :: x in SplitOn(s, '/') && x != "" ==> x in r
  {
    var pieces := SplitOn(s, '/');
    var r := NonEmpty(pieces);
    assert forall i :: 0 <= i < |r| ==> r[i] in pieces;
    r
  }

  /** One turn of the loop of `resolvePath`: `..` pops (a no-op on an empty list), `.` is skipped. */
  function Step(parts: seq<string>, part: string): seq<string> {
    if part == ".." then (if parts == [] then [] else parts[..|parts| - 1])
    else if part != "." then parts + [part]
    else parts
  }

  /** The whole loop of `resolvePath`, applying every relative segment in order. */
  function Apply(parts: seq<string>, rel: seq<string>): seq<string>
    decreases |rel|
  {
    if rel == [] then parts else Apply(Step(parts, rel[0]), rel[1..])
  }

  /** What `resolvePath(basePath, relativePath)` returns. */
  function ResolvedPath(basePath: string, relativePath: string): string {
    "/" + JoinWith(Apply(Segments(basePath), Segments(relativePath)), '/')
  }

  /** `resolvePath`: collapses `.` and `..` of a relative path onto a base directory. */
  method ResolvePath(basePath: string, relativePath: string) returns (r: string)
    ensures r == ResolvedPath(basePath, relativePath)
    ensures |r| >= 1 && r[0] == '/'
  {
    var parts := Segments(basePath);
    var relParts := Segments(relativePath);
    for i := 0 to |relParts|
      invariant Apply(parts, relParts[i..]) == Apply(Segments(basePath), relParts)
    {
      assert relParts[i..][1..] == relParts[i + 1..];
      var part := relParts[i];
      if part == ".." {
        if parts != [] {
          parts := parts[..|parts| - 1];
        }
      } else if part != "." {
        parts := parts + [part];
      }
    }
    r := "/" + JoinWith(parts, '/');
  }

  lemma {:induction false} NonEmptyConcat(a: seq<string>, b: seq<string>)
    ensures NonEmpty(a + b) == NonEmpty(a) + NonEmpty(b)
  {
    if a != [] {
      NonEmptyConcat(a[1..], b);
      assert (a + b)[1..] == a[1..] + b;
    } else {
      assert a + b == b;
    }
  }

  lemma {:induction false} NonEmptyOfClean(xs: seq<string>)
    requires Clean(xs)
    ensures NonEmpty(xs) == xs
  {
    if xs != [] {
      NonEmptyOfClean(xs[1..]);
      assert xs == [xs[0]] + xs[1..];
    }
  }

  /** The segments of a clean list, joined after a slash, are the list again. */
  lemma SegmentsOfJoin(parts: seq<string>)
    requires Clean(parts)
    ensures Segments("/" + JoinWith(parts, '/')) == parts
  {
    var j := JoinWith(parts, '/');
    assert "/" + j == [] + ['/'] + j;
    SplitOnConcat([], '/', j);
    if parts == [] {
      assert SplitOn(j, '/') == [""];
      assert NonEmpty([""]) == NonEmpty([""][1..]);
      assert SplitOn("/" + j, '/') == ["", ""];
      assert NonEmpty(["", ""]) == NonEmpty([""]);
    } else {
      SplitOnJoin(parts, '/');
      NonEmptyConcat([""], parts);
      assert NonEmpty([""]) == NonEmpty([""][1..]);
      NonEmptyOfClean(parts);
    }
  }

  lemma {:induction false} ApplyClean(parts: seq<string>, rel: seq<string>)
    requires Clean(parts) && Clean(rel)
    ensures Clean(Apply(parts, rel))
    decreases |rel|
  {
    if rel != [] {
      ApplyClean(Step(parts, rel[0]), rel[1..]);
    }
  }

  /** The segments of a resolved path are exactly the ones the loop left in `parts`. */
  lemma ResolvedSegments(basePath: string, relativePath: string)
    ensures Segments(ResolvedPath(basePath, relativePath))
         == Apply(Segments(basePath), Segments(relativePath))
  {
    ApplyClean(Segments(basePath), Segments(relativePath));
    SegmentsOfJoin(Apply(Segments(basePath), Segments(relativePath)));
  }

  /** Every segment left is one of the base, or a relative segment other than `.` and `..`. */
  lemma {:induction false} ApplyOrigin(parts: seq<string>, rel: seq<string>, s: string)
    requires s in Apply(parts, rel)
    ensures s in parts || (s in rel && s != "." && s != "..")
    decreases |rel|
  {
    if rel != [] {
      ApplyOrigin(Step(parts, rel[0]), rel[1..], s);
      if s in Step(parts, rel[0]) && s !in parts {
        assert s == rel[0];
      }
    }
  }

  /** No empty segment, and no `.` or `..` coming from the relative part, survives in the result. */
  lemma ResolvedSegmentOrigin(basePath: string, relativePath: string, s: string)
    requires s in Segments(ResolvedPath(basePath, relativePath))
    ensures s != "" && '/' !in s
    ensures s in Segments(basePath) || (s in Segments(relativePath) && s != "." && s != "..")
  {
    ResolvedSegments(basePath, relativePath);
    ApplyOrigin(Segments(basePath), Segments(relativePath), s);
  }

  /** The relative segments other than `.`, in order. */
  function WithoutDots(rel: seq<string>): seq<string> {
    if rel == [] then [] else (if rel[0] == "." then [] else [rel[0]]) + WithoutDots(rel[1..])
  }

  lemma {:induction false} ApplyWithoutDotDot(parts: seq<string>, rel: seq<string>)
    requires ".." !in rel
    ensures Apply(parts, rel) == parts + WithoutDots(rel)
    decreases |rel|
  {
    if rel != [] {
      var head := rel[0];
      assert head in rel;
      assert ".." !in rel[1..] by { assert forall x :: x in rel[1..] ==> x in rel; }
      ApplyWithoutDotDot(Step(parts, head), rel[1..]);
      var kept := if head == "." then [] else [head];
      assert Step(parts, head) == parts + kept;
      assert WithoutDots(rel) == kept + WithoutDots(rel[1..]);
      assert (parts + kept) + WithoutDots(rel[1..]) == parts + (kept + WithoutDots(rel[1..]));
    }
  }

  /** Without `..`, the base segments are a prefix of the result and the rest are the relative ones minus `.`. */
  lemma ResolvedWithoutDotDot(basePath: string, relativePath: string)
    requires ".." !in Segments(relativePath)
    ensures Segments(ResolvedPath(basePath, relativePath))
         == Segments(basePath) + WithoutDots(Segments(relativePath))
  {
    ResolvedSegments(basePath, relativePath);
    ApplyWithoutDotDot(Segments(basePath), Segments(relativePath));
  }

  /** A leading `..` at the root is a no-op, because popping an empty list does nothing. */
  lemma DotDotAtRoot(basePath: string, rest: string)
    requires Segments(basePath) == []
    ensures ResolvedPath(basePath, "../" + rest) == ResolvedPath(basePath, rest)
  {
    SegmentsAfterDotDot(rest);
    assert Apply([], [".."] + Segments(rest)) == Apply(Step([], ".."), Segments(rest));
  }

  lemma SegmentsAfterDotDot(rest: string)
    ensures Segments("../" + rest) == [".."] + Segments(rest)
  {
    assert "../" + rest == ".." + ['/'] + rest;
    SplitOnConcat("..", '/', rest);
    SplitOnNoSeparator("..", '/');
    NonEmptyConcat([".."], SplitOn(rest, '/'));
    assert NonEmpty([".."]) == [".."] + NonEmpty([".."][1..]);
  }

  /** Normalisation is idempotent: resolving `.` against a resolved path gives it back. */
  lemma ResolveIdempotent(basePath: string, relativePath: string)
    ensures ResolvedPath(ResolvedPath(basePath, relativePath), ".") == ResolvedPath(basePath, relativePath)
  {
    var p := ResolvedPath(basePath, relativePath);
    ResolvedSegments(basePath, relativePath);
    SplitOnNoSeparator(".", '/');
    assert NonEmpty(["."]) == ["."] + NonEmpty(["."][1..]);
    assert Segments(".") == ["."];
    assert Apply(Segments(p), ["."]) == Apply(Step(Segments(p), "."), []);
  }

  // ---------------------------------------------------------------------
  // The virtual file store and the resolve hook (`onResolve`)
  // ---------------------------------------------------------------------

  /**
   * The `files` record: `code` maps each virtual path to its text and
   * `order` is the order `Object.keys(files)` lists the paths in.
   */
  datatype FileStore = FileStore(order: seq<string>, code: map<string, string>)

  /** `order` lists exactly the keys of `code`. */
  ghost predicate Wf(files: FileStore) {
    && (forall i :: 0 <= i < |files.order| ==> files.order[i] in files.code)
    && (forall p :: p in files.code ==> p in files.order)
  }

  /** The outcome of `onResolve`: namespace `virtual`, or `external: true`. */
  datatype Resolved = Virtual(path: string) | External(path: string)

  const Extensions: seq<string> := ["", ".ts", ".tsx", ".js", ".jsx"]
  const IndexFiles: seq<string> := ["/index.ts", "/index.tsx", "/index.js", "/index.jsx"]

  /** The probed paths `base + ext`, in the order of `exts`. */
  function Candidates(base: string, exts: seq<string>): (r: seq<string>)
    ensures |r| == |exts|
    ensures forall i :: 0 <= i < |exts| ==> r[i] == base + exts[i]
  {
    if exts == [] then [] else [base + exts[0]] + Candidates(base, exts[1..])
  }

  /** The first candidate that is a key of the store, if any. */
  function FirstPresent(cands: seq<string>, files: map<string, string>): (r: Option<string>)
    ensures r.Some? ==> r.value in files
                        && exists i :: 0 <= i < |cands| && cands[i] == r.value
                                       && forall j :: 0 <= j < i ==> cands[j] !in files
    ensures r.None? <==> forall i :: 0 <= i < |cands| ==> cands[i] !in files
  {
    if cands == [] then None
    else if cands[0] in files then Some(cands[0])
    else FirstPresent(cands[1..], files)
  }

  lemma {:induction false} FirstPresentConcat(xs: seq<string>, ys: seq<string>, files: map<string, string>)
    ensures FirstPresent(xs + ys, files)
         == if FirstPresent(xs, files).Some? then FirstPresent(xs, files) else FirstPresent(ys, files)
  {
    if xs == [] {
      assert xs + ys == ys;
    } else {
      assert (xs + ys)[1..] == xs[1..] + ys;
      FirstPresentConcat(xs[1..], ys, files);
    }
  }

  /** One of the probe loops of `onResolve`. */
  method Probe(base: string, exts: seq<string>, files: map<string, string>) returns (r: Option<string>)
    ensures r == FirstPresent(Candidates(base, exts), files)
  {
    for i := 0 to |exts|
      invariant FirstPresent(Candidates(base, exts), files) == FirstPresent(Candidates(base, exts[i..]), files)
    {
      assert exts[i..][1..] == exts[i + 1..];
      var testPath := base + exts[i];
      if testPath in files {
        return Some(testPath);
      }
    }
    assert exts[|exts|..] == [];
    return None;
  }

  /** `importer.replace(/\/[^/]*$/, '')`: drops the last slash and what follows it. */
  function ParentDir(importer: string): (r: string)
    ensures '/' !in importer ==> r == importer
    ensures '/' in importer ==> |r| < |importer| && r == importer[..|r|] && importer[|r|] == '/'
                                && '/' !in importer[|r| + 1..]
  {
    if importer == [] then []
    else if importer[|importer| - 1] == '/' then importer[..|importer| - 1]
    else if '/' in importer[..|importer| - 1] then
      var r := ParentDir(importer[..|importer| - 1]);
      assert importer[|r| + 1..] == importer[..|importer| - 1][|r| + 1..] + [importer[|importer| - 1]];
      r
    else
      assert forall k :: 0 <= k < |importer| - 1 ==> importer[k] == importer[..|importer| - 1][k];
      importer
  }

  /** The specifier classes `onResolve` tells apart. */
  predicate IsRelative(spec: string) { StartsWith(spec, ".") }
  predicate IsAbsolute(spec: string) { StartsWith(spec, "/") }
  predicate IsAlias(spec: string) { StartsWith(spec, "@/") }
  predicate IsBare(spec: string) { !IsRelative(spec) && !IsAbsolute(spec) && !IsAlias(spec) }

  /** A specifier is in at most one of the classes, decided by its first character. */
  lemma SpecifierClasses(spec: string)
    ensures IsRelative(spec) <==> |spec| > 0 && spec[0] == '.'
    ensures IsAbsolute(spec) <==> |spec| > 0 && spec[0] == '/'
    ensures IsAlias(spec) ==> |spec| > 0 && spec[0] == '@'
  {
    if IsAlias(spec) {
      assert spec[..2][0] == '@';
    }
  }

  /** Where a relative specifier points: resolved against the importer's directory. */
  function RelativeTarget(spec: string, importer: string): string {
    ResolvedPath(ParentDir(importer), spec)
  }

  /** Where an alias specifier points: `@/` rewritten once to `/src/`. */
  function AliasTarget(spec: string): string {
    ReplaceFirst(spec, "@/", "/src/")
  }

  /** The file a relative specifier finds: extension probes first, then index files. */
  function RelativeHit(spec: string, importer: string, files: map<string, string>): Option<string> {
    var target := RelativeTarget(spec, importer);
    var hit := FirstPresent(Candidates(target, Extensions), files);
    if hit.Some? then hit else FirstPresent(Candidates(target, IndexFiles), files)
  }

  /** The file an absolute specifier finds: extension probes only. */
  function AbsoluteHit(spec: string, files: map<string, string>): Option<string> {
    FirstPresent(Candidates(spec, Extensions), files)
  }

  /** The file an alias specifier finds: extension probes only, on the rewritten path. */
  function AliasHit(spec: string, files: map<string, string>): Option<string> {
    FirstPresent(Candidates(AliasTarget(spec), Extensions), files)
  }

  /** A probe hit in namespace `virtual`, or the specifier itself in that namespace. */
  function VirtualOr(hit: Option<string>, spec: string): Resolved {
    if hit.Some? then Virtual(hit.value) else Virtual(spec)
  }

  /** What `onResolve` returns for `spec` imported from `importer`, a function of the store. */
  function Resolution(spec: string, importer: string, files: map<string, string>): Resolved {
    if IsRelative(spec) then VirtualOr(RelativeHit(spec, importer, files), spec)
    else if IsAbsolute(spec) then VirtualOr(AbsoluteHit(spec, files), spec)
    else if IsAlias(spec) then VirtualOr(AliasHit(spec, files), spec)
    else External(spec)
  }

  method ProbeRelative(path: string, importer: string, files: map<string, string>) returns (hit: Option<string>)
    ensures hit == RelativeHit(path, importer, files)
  {
    var basePath := ParentDir(importer);
    var resolvedPath := ResolvePath(basePath, path);
    hit := Probe(resolvedPath, Extensions, files);
    if hit.None? {
      hit := Probe(resolvedPath, IndexFiles, files);
    }
  }

  /** The `onResolve` hook, branch by branch as the plugin runs it. */
  method OnResolve(path: string, importer: string, files: map<string, string>) returns (r: Resolved)
    ensures r == Resolution(path, importer, files)
  {
    SpecifierClasses(path);
    if StartsWith(path, ".") {
      var hit := ProbeRelative(path, importer, files);
      if hit.Some? {
        return Virtual(hit.value);
      }
    }
    if StartsWith(path, "/") {
      var hit := Probe(path, Extensions, files);
      assert hit == AbsoluteHit(path, files);
      if hit.Some? {
        assert !IsRelative(path);
        return Virtual(hit.value);
      }
    }
    if StartsWith(path, "@/") {
      var resolvedPath := ReplaceFirst(path, "@/", "/src/");
      var hit := Probe(resolvedPath, Extensions, files);
      assert hit == AliasHit(path, files);
      if hit.Some? {
        assert !IsRelative(path) && !IsAbsolute(path);
        return Virtual(hit.value);
      }
    }
    if !StartsWith(path, ".") && !StartsWith(path, "/") && !StartsWith(path, "@/") {
      return External(path);
    }
    return Virtual(path);
  }

  // ---------------------------------------------------------------------
  // The load hook (`onLoad`) and the loader table (`getLoader`)
  // ---------------------------------------------------------------------

  datatype Loader = Ts | Tsx | Js | Jsx | Json

  lemma LastCharOfSuffix(s: string, suffix: string)
    requires |suffix| > 0
    ensures EndsWith(s, suffix) ==> s[|s| - 1] == suffix[|suffix| - 1]
  {
    if EndsWith(s, suffix) {
      assert s[|s| - |suffix|..][|suffix| - 1] == s[|s| - 1];
    }
  }

  /** `getLoader`: the loader named by the path's extension, `js` for any other. */
  function GetLoader(path: string): (r: Loader)
    ensures r == Ts <==> EndsWith(path, ".ts")
    ensures r == Tsx <==> EndsWith(path, ".tsx")
    ensures r == Jsx <==> EndsWith(path, ".jsx")
    ensures r == Json <==> EndsWith(path, ".json")
    ensures r == Js <==> !EndsWith(path, ".ts") && !EndsWith(path, ".tsx")
                         && !EndsWith(path, ".jsx") && !EndsWith(path, ".json")
  {
    LastCharOfSuffix(path, ".ts");
    LastCharOfSuffix(path, ".tsx");
    LastCharOfSuffix(path, ".jsx");
    LastCharOfSuffix(path, ".json");
    if EndsWith(path, ".ts") then Ts
    else if EndsWith(path, ".tsx") then Tsx
    else if EndsWith(path, ".jsx") then Jsx
    else if EndsWith(path, ".json") then Json
    else Js
  }

  /** What `onLoad` hands to esbuild: the file's code, or an empty JavaScript module. */
  datatype Loaded = Loaded(contents: string, loader: Loader)

  function OnLoad(path: string, files: map<string, string>): Loaded {
    if path in files then Loaded(files[path], GetLoader(path)) else Loaded("", Js)
  }

  // ---------------------------------------------------------------------
  // Properties of the resolver
  // ---------------------------------------------------------------------

  /** A resolved relative path is absolute, so every relative probe is too. */
  lemma RelativeTargetIsAbsolute(spec: string, importer: string)
    ensures IsAbsolute(RelativeTarget(spec, importer))
  {
    var t := RelativeTarget(spec, importer);
    assert t[0] == '/';
    assert t[..1] == "/";
  }

  /**
   * A relative specifier probes `target + ext` for the five extensions, then the
   * four index files, and resolves to the first present one; with none present it
   * falls through to itself in namespace `virtual`.
   */
  lemma RelativeResolution(spec: string, importer: string, files: map<string, string>)
    requires IsRelative(spec)
    ensures var hit := FirstPresent(Candidates(RelativeTarget(spec, importer), Extensions + IndexFiles), files);
            Resolution(spec, importer, files) == VirtualOr(hit, spec)
  {
    var t := RelativeTarget(spec, importer);
    CandidatesConcat(t, Extensions, IndexFiles);
    FirstPresentConcat(Candidates(t, Extensions), Candidates(t, IndexFiles), files);
  }

  lemma {:induction false} CandidatesConcat(base: string, xs: seq<string>, ys: seq<string>)
    ensures Candidates(base, xs + ys) == Candidates(base, xs) + Candidates(base, ys)
  {
    assert |Candidates(base, xs + ys)| == |Candidates(base, xs) + Candidates(base, ys)|;
    forall i | 0 <= i < |xs| + |ys|
      ensures Candidates(base, xs + ys)[i] == (Candidates(base, xs) + Candidates(base, ys))[i]
    {
      if i < |xs| {
        assert (xs + ys)[i] == xs[i];
      } else {
        assert (xs + ys)[i] == ys[i - |xs|];
      }
    }
  }

  /** Absolute and alias specifiers never reach an index file: only `p + ext` for the five extensions. */
  lemma NoIndexProbing(spec: string, importer: string, files: map<string, string>)
    requires IsAbsolute(spec) || IsAlias(spec)
    ensures var p := if IsAbsolute(spec) then spec else "/src/" + spec[2..];
            var r := Resolution(spec, importer, files);
            r.Virtual? && (r.path == spec || exists i :: 0 <= i < |Extensions| && r.path == p + Extensions[i])
  {
    SpecifierClasses(spec);
    if IsAlias(spec) {
      AliasRewrite(spec);
    }
  }

  /** `@/` is rewritten once, at the front, to `/src/`. */
  lemma AliasRewrite(spec: string)
    requires IsAlias(spec)
    ensures AliasTarget(spec) == "/src/" + spec[2..]
  {
    assert OccursAt(spec, "@/", 0);
    assert spec[..0] + "/src/" + spec[2..] == "/src/" + spec[2..];
  }

  /** A bare specifier is external with its path unchanged, whatever the store holds. */
  lemma BareIsExternal(spec: string, importer: string, files: map<string, string>)
    ensures Resolution(spec, importer, files).External? <==> IsBare(spec)
    ensures IsBare(spec) ==> Resolution(spec, importer, files) == External(spec)
  {
  }

  /** A virtual result is a key of the store, or else the specifier itself (the fall-through). */
  lemma VirtualIsKeyOrSpecifier(spec: string, importer: string, files: map<string, string>)
    requires Resolution(spec, importer, files).Virtual?
    ensures var p := Resolution(spec, importer, files).path;
            p in files || p == spec
  {
  }

  /**
   * An unresolved relative, absolute or alias import does not fail: it resolves to
   * itself in namespace `virtual`, and (unless the specifier is itself a key) loads
   * as an empty JavaScript module.
   */
  lemma UnresolvedLoadsEmpty(spec: string, importer: string, files: map<string, string>)
    requires !IsBare(spec)
    requires IsRelative(spec) ==> Unprobed(RelativeTarget(spec, importer), Extensions, files)
                                  && Unprobed(RelativeTarget(spec, importer), IndexFiles, files)
    requires IsAbsolute(spec) ==> Unprobed(spec, Extensions, files)
    requires IsAlias(spec) ==> Unprobed(AliasTarget(spec), Extensions, files)
    requires spec !in files
    ensures Resolution(spec, importer, files) == Virtual(spec)
    ensures OnLoad(spec, files) == Loaded("", Js)
  {
    SpecifierClasses(spec);
    if IsRelative(spec) {
      NothingProbed(RelativeTarget(spec, importer), Extensions, files);
      NothingProbed(RelativeTarget(spec, importer), IndexFiles, files);
    } else if IsAbsolute(spec) {
      NothingProbed(spec, Extensions, files);
    } else if IsAlias(spec) {
      NothingProbed(AliasTarget(spec), Extensions, files);
    }
  }

  /** No `base + ext` for an `ext` of `exts` is a key of the store. */
  predicate Unprobed(base: string, exts: seq<string>, files: map<string, string>) {
    forall e :: e in exts ==> base + e !in files
  }

  lemma NothingProbed(base: string, exts: seq<string>, files: map<string, string>)
    requires Unprobed(base, exts, files)
    ensures FirstPresent(Candidates(base, exts), files).None?
  {
    forall i | 0 <= i < |exts|
      ensures Candidates(base, exts)[i] !in files
    {
      assert exts[i] in exts;
    }
  }

  /** A path that resolved to a key loads that key's code with the loader of its extension. */
  lemma ResolvedLoadsFile(spec: string, importer: string, files: map<string, string>)
    requires Resolution(spec, importer, files).Virtual?
    requires Resolution(spec, importer, files).path != spec || spec in files
    ensures var p := Resolution(spec, importer, files).path;
            p in files && OnLoad(p, files) == Loaded(files[p], GetLoader(p))
  {
  }

  /** An absolute path that is a key resolves to itself: the first probe, with suffix `''`, finds it. */
  lemma ReResolveKey(p: string, other: string, files: map<string, string>)
    requires p in files && IsAbsolute(p)
    ensures Resolution(p, other, files) == Virtual(p)
  {
    SpecifierClasses(p);
    assert Candidates(p, Extensions)[0] == p + "" == p;
  }

  /** A path found by probing is an absolute key. */
  lemma FoundIsAbsoluteKey(spec: string, importer: string, files: map<string, string>)
    requires Resolution(spec, importer, files).Virtual?
    requires Resolution(spec, importer, files).path != spec
    ensures var p := Resolution(spec, importer, files).path;
            p in files && IsAbsolute(p)
  {
    var p := Resolution(spec, importer, files).path;
    var base := if IsRelative(spec) then RelativeTarget(spec, importer)
                else if IsAbsolute(spec) then spec else AliasTarget(spec);
    if IsRelative(spec) {
      RelativeTargetIsAbsolute(spec, importer);
    } else if IsAlias(spec) {
      SpecifierClasses(spec);
      AliasRewrite(spec);
      assert AliasTarget(spec)[..1] == "/";
    }
    assert IsAbsolute(base);
    assert StartsWith(p, base);
    assert p[..1] == base[..1];
  }

  /**
   * Resolving the path found for an import, from any importer, finds that same file
   * again; so does resolving an absolute specifier that is itself a key.
   */
  lemma ReResolution(spec: string, importer: string, other: string, files: map<string, string>)
    requires Resolution(spec, importer, files).Virtual?
    requires Resolution(spec, importer, files).path != spec || (spec in files && IsAbsolute(spec))
    ensures var p := Resolution(spec, importer, files).path;
            Resolution(p, other, files) == Virtual(p)
  {
    var p := Resolution(spec, importer, files).path;
    if p != spec {
      FoundIsAbsoluteKey(spec, importer, files);
    }
    ReResolveKey(p, other, files);
  }

  /** The loader each probed extension stands for. */
  function ExtensionLoader(ext: string): Loader {
    if ext == ".ts" then Ts else if ext == ".tsx" then Tsx else if ext == ".jsx" then Jsx else Js
  }

  /** Every probed extension and index file selects the loader of its own extension. */
  lemma ProbeLoader(stem: string, ext: string)
    requires ext in [".ts", ".tsx", ".js", ".jsx"]
    ensures GetLoader(stem + ext) == ExtensionLoader(ext)
    ensures GetLoader(stem + "/index" + ext) == ExtensionLoader(ext)
  {
    assert stem + "/index" + ext == (stem + "/index") + ext;
    StemLoader(stem, ext);
    StemLoader(stem + "/index", ext);
  }

  lemma StemLoader(stem: string, ext: string)
    requires ext in [".ts", ".tsx", ".js", ".jsx"]
    ensures GetLoader(stem + ext) == ExtensionLoader(ext)
  {
    if ext == ".js" {
      JsLoader(stem);
    } else {
      SuffixOf(stem, ext);
    }
  }

  lemma JsLoader(stem: string)
    ensures GetLoader(stem + ".js") == Js
  {
    SuffixWithin(stem, ".js", ".ts");
    NotSuffixLast(stem + ".js", ".tsx");
    NotSuffixLast(stem + ".js", ".jsx");
    NotSuffixLast(stem + ".js", ".json");
  }

  lemma SuffixOf(base: string, ext: string)
    ensures EndsWith(base + ext, ext)
  {
    assert (base + ext)[|base + ext| - |ext|..] == ext;
  }

  lemma NotSuffixLast(s: string, suffix: string)
    requires |suffix| > 0 && |s| > 0 && s[|s| - 1] != suffix[|suffix| - 1]
    ensures !EndsWith(s, suffix)
  {
    LastCharOfSuffix(s, suffix);
  }

  /** Whether `base + ext` ends with a suffix no longer than `ext` depends on `ext` alone. */
  lemma SuffixWithin(base: string, ext: string, suffix: string)
    requires |suffix| <= |ext|
    ensures EndsWith(base + ext, suffix) <==> EndsWith(ext, suffix)
  {
    assert (base + ext)[|base + ext| - |suffix|..] == ext[|ext| - |suffix|..];
  }

  // ---------------------------------------------------------------------
  // Entry-point selection (`findEntryPoint`)
  // ---------------------------------------------------------------------

  const EntryCandidates: seq<string> := [
    "/src/main.ts", "/src/main.tsx", "/src/main.js", "/src/main.jsx",
    "/src/index.ts", "/src/index.tsx", "/src/index.js", "/src/index.jsx"
  ]

  /** The fallback filter: a path under `/src/` ending in `.ts`, `.tsx`, `.js` or `.jsx`. */
  predicate IsSourceFile(path: string) {
    StartsWith(path, "/src/")
    && (EndsWith(path, ".ts") || EndsWith(path, ".tsx") || EndsWith(path, ".js") || EndsWith(path, ".jsx"))
  }

  /** The first path of `keys` that passes the fallback filter. */
  function FirstSourceFile(keys: seq<string>): (r: Option<string>)
    ensures r.Some? ==> IsSourceFile(r.value)
                        && exists i :: 0 <= i < |keys| && keys[i] == r.value
                                       && forall j :: 0 <= j < i ==> !IsSourceFile(keys[j])
    ensures r.None? <==> forall i :: 0 <= i < |keys| ==> !IsSourceFile(keys[i])
  {
    if keys == [] then None
    else if IsSourceFile(keys[0]) then Some(keys[0])
    else FirstSourceFile(keys[1..])
  }

  /** What `findEntryPoint` returns (`None` for `null`). */
  function EntryPoint(files: FileStore): Option<string> {
    var hit := FirstPresent(EntryCandidates, files.code);
    if hit.Some? then hit else FirstSourceFile(files.order)
  }

  /** `findEntryPoint`: the first present candidate, else the first `/src/` source key, else none. */
  method FindEntryPoint(files: FileStore) returns (r: Option<string>)
    ensures r == EntryPoint(files)
  {
    for i := 0 to |EntryCandidates|
      invariant FirstPresent(EntryCandidates, files.code) == FirstPresent(EntryCandidates[i..], files.code)
    {
      FirstPresentFrom(EntryCandidates, files.code, i);
      if EntryCandidates[i] in files.code {
        return Some(EntryCandidates[i]);
      }
    }
    var srcFiles: seq<string> := [];
    for i := 0 to |files.order|
      invariant FirstSourceFile(files.order) == (if srcFiles != [] then Some(srcFiles[0]) else FirstSourceFile(files.order[i..]))
    {
      FirstSourceFileFrom(files.order, i);
      if IsSourceFile(files.order[i]) {
        srcFiles := srcFiles + [files.order[i]];
      }
    }
    r := if |srcFiles| > 0 then Some(srcFiles[0]) else None;
  }

  lemma FirstPresentFrom(cands: seq<string>, files: map<string, string>, i: nat)
    requires i < |cands|
    ensures FirstPresent(cands[i..], files)
            == if cands[i] in files then Some(cands[i]) else FirstPresent(cands[i + 1..], files)
  {
    assert cands[i..][1..] == cands[i + 1..];
  }

  lemma FirstSourceFileFrom(keys: seq<string>, i: nat)
    requires i < |keys|
    ensures FirstSourceFile(keys[i..])
            == if IsSourceFile(keys[i]) then Some(keys[i]) else FirstSourceFile(keys[i + 1..])
  {
    assert keys[i..][1..] == keys[i + 1..];
  }

  /** A chosen entry point is always a key of the store. */
  lemma EntryPointIsKey(files: FileStore)
    requires Wf(files)
    ensures EntryPoint(files).Some? ==> EntryPoint(files).value in files.code
  {
  }

  /**
   * When no conventional candidate is present, the entry is the first `/src/` source
   * key in key order, and there is none only when no key passes that filter.
   */
  lemma EntryPointFallback(files: FileStore)
    requires Wf(files)
    requires forall c :: c in EntryCandidates ==> c !in files.code
    ensures EntryPoint(files) == FirstSourceFile(files.order)
    ensures EntryPoint(files).None? <==> forall p :: p in files.code ==> !IsSourceFile(p)
  {
    assert FirstPresent(EntryCandidates, files.code).None?;
  }

  // ---------------------------------------------------------------------
  // Compilation (`compileFiles`, `initializeEsbuild`)
  // ---------------------------------------------------------------------

  /** The result of `compileFiles`: `{success: true, code}` or `{success: false, error}`. */
  datatype CompileResult = Compiled(code: string) | Failed(error: string)

  /** What the plugin-driven `esbuild.build` call is given: the stdin entry and the store. */
  datatype BuildRequest = BuildRequest(entry: string, contents: string, loader: Loader, files: FileStore)

  /** What `esbuild.build` does: produce output files (decoded as text), or throw a message. */
  datatype BuildOutcome = Output(outputFiles: seq<string>) | Threw(message: string)

  const NoEntryError := "No entry point found. Please provide a /src/main.ts or /src/main.js file."
  const NoOutputError := "Compilation produced no output"
  /** The message of the TypeError raised by `files[entry].code` for an entry that is not a key. */
  const MissingEntryError := "Cannot read properties of undefined (reading 'code')"

  /** `entryPoint || findEntryPoint(files)`: an empty explicit entry counts as absent. */
  function ChosenEntry(files: FileStore, entryPoint: Option<string>): Option<string> {
    if entryPoint.Some? && entryPoint.value != "" then entryPoint else EntryPoint(files)
  }

  /** The request `compileFiles` hands to esbuild for an entry that is a key. */
  function RequestFor(files: FileStore, entry: string): BuildRequest
    requires entry in files.code
  {
    BuildRequest(entry, files.code[entry], GetLoader(entry), files)
  }

  /** The body of `compileFiles` once esbuild is initialised, on the abstract engine `build`. */
  function CompileWith(files: FileStore, entryPoint: Option<string>, build: BuildRequest -> BuildOutcome): CompileResult {
    var entry := ChosenEntry(files, entryPoint);
    if entry.None? then Failed(NoEntryError)
    else if entry.value !in files.code then Failed(MissingEntryError)
    else match build(RequestFor(files, entry.value))
      case Threw(message) => Failed(message)
      case Output(outs) => if |outs| > 0 then Compiled(outs[0]) else Failed(NoOutputError)
  }

  /**
   * `compileFiles` succeeds exactly when an entry is chosen, it is a key, and the
   * engine produces at least one output file; the code is the first output file.
   */
  lemma CompileSuccess(files: FileStore, entryPoint: Option<string>, build: BuildRequest -> BuildOutcome)
    ensures var r := CompileWith(files, entryPoint, build);
            var entry := ChosenEntry(files, entryPoint);
            r.Compiled? <==> (entry.Some? && entry.value in files.code
                              && build(RequestFor(files, entry.value)).Output?
                              && |build(RequestFor(files, entry.value)).outputFiles| > 0)
    ensures var r := CompileWith(files, entryPoint, build);
            var entry := ChosenEntry(files, entryPoint);
            r.Compiled? ==> r.code == build(RequestFor(files, entry.value)).outputFiles[0]
    ensures var r := CompileWith(files, entryPoint, build);
            var entry := ChosenEntry(files, entryPoint);
            entry.Some? && entry.value in files.code && build(RequestFor(files, entry.value)) == Output([])
            ==> r == Failed(NoOutputError)
    ensures var r := CompileWith(files, entryPoint, build);
            var entry := ChosenEntry(files, entryPoint);
            entry.Some? && entry.value !in files.code ==> r == Failed(MissingEntryError)
  {
  }

  /** With no explicit entry and no entry found, the result is the fixed "No entry point" failure. */
  lemma NoEntryFailure(files: FileStore, entryPoint: Option<string>, build: BuildRequest -> BuildOutcome)
    requires entryPoint.None? || entryPoint == Some("")
    requires forall c :: c in EntryCandidates ==> c !in files.code
    requires forall i :: 0 <= i < |files.order| ==> !IsSourceFile(files.order[i])
    ensures CompileWith(files, entryPoint, build) == Failed(NoEntryError)
  {
    assert FirstPresent(EntryCandidates, files.code).None?;
  }

  /** An exception of the engine becomes a failure carrying its message. */
  lemma ThrownBecomesFailure(files: FileStore, entryPoint: Option<string>, build: BuildRequest -> BuildOutcome)
    requires ChosenEntry(files, entryPoint).Some?
    requires ChosenEntry(files, entryPoint).value in files.code
    requires build(RequestFor(files, ChosenEntry(files, entryPoint).value)).Threw?
    ensures CompileWith(files, entryPoint, build)
         == Failed(build(RequestFor(files, ChosenEntry(files, entryPoint).value)).message)
  {
  }

  /**
   * The module-level state of browserCompiler.ts: the `esbuildInitialized` flag.
   * `inits` counts the successful calls of `esbuild.initialize`.
   */
  class Esbuild {
    var initialized: bool
    ghost var inits: nat

    /** esbuild has been initialised at most once, and exactly once when the flag is set. */
    ghost predicate Valid()
      reads this
    {
      inits == if initialized then 1 else 0
    }

    /** The module is loaded with the flag cleared. */
    constructor ()
      ensures Valid() && !initialized
    {
      initialized := false;
      inits := 0;
    }

    /**
     * `initializeEsbuild`: calls the engine only when the flag is clear. `initError`
     * is what `esbuild.initialize` would reject with; the result is what escapes.
     */
    method InitializeEsbuild(initError: Option<string>) returns (thrown: Option<string>)
      requires Valid()
      modifies this
      ensures Valid()
      ensures old(initialized) ==> thrown.None? && initialized && inits == old(inits)
      ensures !old(initialized) ==> thrown == initError && initialized == initError.None?
    {
      if initialized {
        return None;
      }
      if initError.Some? {
        return initError;
      }
      inits := inits + 1;
      initialized := true;
      return None;
    }

    /**
     * `compileFiles`: never throws; an initialisation failure and every error of the
     * body become a `Failed` result.
     */
    method CompileFiles(files: FileStore, entryPoint: Option<string>, initError: Option<string>,
                        build: BuildRequest -> BuildOutcome) returns (r: CompileResult)
      requires Valid()
      modifies this
      ensures Valid()
      ensures !old(initialized) && initError.Some? ==> !initialized && r == Failed(initError.value)
      ensures old(initialized) || initError.None? ==> initialized && r == CompileWith(files, entryPoint, build)
    {
      if !initialized {
        var thrown := InitializeEsbuild(initError);
        if thrown.Some? {
          return Failed(thrown.value);
        }
      }
      var entry: Option<string>;
      if entryPoint.Some? && entryPoint.value != "" {
        entry := entryPoint;
      } else {
        entry := FindEntryPoint(files);
      }
      if entry.None? {
        return Failed(NoEntryError);
      }
      if entry.value !in files.code {
        return Failed(MissingEntryError);
      }
      var outcome := build(BuildRequest(entry.value, files.code[entry.value], GetLoader(entry.value), files));
      match outcome {
        case Threw(message) =>
          return Failed(message);
        case Output(outs) =>
          if |outs| > 0 {
            return Compiled(outs[0]);
          }
          return Failed(NoOutputError);
      }
    }
  }
}
