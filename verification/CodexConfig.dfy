/**
 Moving a user's Codex configuration into a window's own home: every relative
 path Codex reads against the folder of its `config.toml` is rewritten to the
 path it named there. (Unix path rule.)
 */
module CodexConfig {
  import opened Base

  /** A parsed configuration; `inline` and `ofTables` keep the written form. */
  datatype Node =
    | Str(text: string)
    | Other(scalar: int)
    | Arr(ofTables: bool, elems: seq<Node>)
    | Tab(inline: bool, entries: map<string, Node>)

  type Pattern = seq<string>

  const ANY_KEY := "*"
  const EACH_ELEMENT := "[]"

  const RELATIVE_PATH_KEYS: seq<Pattern> := [
    ["model_instructions_file"],
    ["experimental_compact_prompt_file"],
    ["model_catalog_json"],
    ["sqlite_home"],
    ["log_dir"],
    ["js_repl_node_path"],
    ["js_repl_node_module_dirs", EACH_ELEMENT],
    ["profiles", ANY_KEY, "model_instructions_file"],
    ["profiles", ANY_KEY, "experimental_compact_prompt_file"],
    ["profiles", ANY_KEY, "model_catalog_json"],
    ["profiles", ANY_KEY, "js_repl_node_path"],
    ["profiles", ANY_KEY, "js_repl_node_module_dirs", EACH_ELEMENT],
    ["agents", ANY_KEY, "config_file"],
    ["skills", "config", EACH_ELEMENT, "path"],
    ["sandbox_workspace_write", "writable_roots", EACH_ELEMENT],
    ["model_providers", ANY_KEY, "auth", "cwd"],
    ["otel", ANY_KEY, ANY_KEY, "tls", "ca-certificate"],
    ["otel", ANY_KEY, ANY_KEY, "tls", "client-certificate"],
    ["otel", ANY_KEY, ANY_KEY, "tls", "client-private-key"]
  ]

  // ---- Paths as text -----------------------------------------------------------

  predicate Absolute(p: string) { p != "" && p[0] == '/' }

  predicate FromHome(p: string) { p == "~" || "~/" <= p }

  /** Appending a relative path to a folder. */
  function Join(folder: string, p: string): (r: string) {
    folder + (if folder != "" && folder[|folder| - 1] != '/' then "/" else "") + p
  }

  function RebasedText(p: string, base: string): (r: string) {
    if FromHome(p) || Absolute(p) then p else Join(base, p)
  }

  /** What rewriting makes of a path, by its text: a relative one stands behind the folder and a slash. */
  lemma RebasedTextIs(p: string, base: string)
    requires base != "" && base[0] == '/'
    ensures p == "~" || (|p| >= 2 && p[0] == '~' && p[1] == '/') || (p != "" && p[0] == '/') ==>
              RebasedText(p, base) == p
    ensures !(p == "~" || (|p| >= 2 && p[0] == '~' && p[1] == '/') || (p != "" && p[0] == '/')) ==>
              RebasedText(p, base) == if base[|base| - 1] == '/' then base + p else base + "/" + p
  {
  }

  // ---- Paths as places ----------------------------------------------------------------

  /** Where the first component of a path ends. */
  function SegmentEnd(p: string): (n: nat)
    ensures n <= |p| && (n < |p| ==> p[n] == '/') && forall i :: 0 <= i < n ==> p[i] != '/'
  {
    if p == "" || p[0] == '/' then 0 else 1 + SegmentEnd(p[1..])
  }

  /** The components of a path: its parts between slashes, empty ones left out. */
  function Components(p: string): (r: seq<string>)
    decreases |p|
  {
    if p == "" then []
    else if p[0] == '/' then Components(p[1..])
    else
      var n := SegmentEnd(p);
      [p[..n]] + Components(p[n..])
  }

  lemma {:induction false} ComponentsOfJoined(a: string, b: string)
    ensures Components(a + "/" + b) == Components(a) + Components(b)
    decreases |a|
  {
    var s := a + "/" + b;
    if a == "" {
      assert s[1..] == b;
    } else if a[0] == '/' {
      assert s[1..] == a[1..] + "/" + b;
      ComponentsOfJoined(a[1..], b);
    } else {
      FirstComponent(a, b);
      ComponentsOfJoined(a[SegmentEnd(a)..], b);
    }
  }

  lemma FirstComponent(a: string, b: string)
    requires a != "" && a[0] != '/'
    ensures var n := SegmentEnd(a);
            n > 0 && Components(a + "/" + b) == [a[..n]] + Components(a[n..] + "/" + b)
  {
    var s, n := a + "/" + b, SegmentEnd(a);
    SegmentEndIs(s, n);
    assert s[..n] == a[..n] && s[n..] == a[n..] + "/" + b;
  }

  lemma SegmentEndIs(p: string, n: nat)
    requires n < |p| && p[n] == '/' && forall i :: 0 <= i < n ==> p[i] != '/'
    ensures SegmentEnd(p) == n
  {
    var m := SegmentEnd(p);
    assert !(m < n) && !(n < m);
  }

  /** A folder's components do not depend on a slash at its end. */
  lemma TrailingSlash(a: string)
    ensures Components(a + "/") == Components(a)
  {
    ComponentsOfJoined(a, "");
    assert a + "/" + "" == a + "/";
  }

  lemma JoinedComponents(folder: string, p: string)
    requires folder != ""
    ensures Components(Join(folder, p)) == Components(folder) + Components(p)
  {
    var n := |folder| - 1;
    if folder[n] == '/' {
      var front := folder[..n];
      assert folder == front + "/" && Join(folder, p) == front + "/" + p;
      TrailingSlash(front);
      ComponentsOfJoined(front, p);
    } else {
      assert Join(folder, p) == folder + "/" + p;
      ComponentsOfJoined(folder, p);
    }
  }

  /** The file a configured path names, read from the `config.toml` of `folder`. */
  datatype Place = UserDirectory(p: string) | File(components: seq<string>)

  function Resolve(p: string, folder: string): (r: Place) {
    if p == "~" || (|p| >= 2 && p[0] == '~' && p[1] == '/') then UserDirectory(p)
    else if p != "" && p[0] == '/' then File(Components(p))
    else File(Components(folder) + Components(p))
  }

  lemma RebasedTextSettles(p: string, base: string, elsewhere: string)
    requires Absolute(base)
    ensures Resolve(RebasedText(p, base), elsewhere) == Resolve(p, base)
    ensures RebasedText(RebasedText(p, base), base) == RebasedText(p, base)
  {
    JoinedComponents(base, p);
  }

  // ---- The rewrite ----------------------------------------------------------------

  function Rebase(node: Node, pattern: Pattern, base: string): (r: Node)
    decreases |pattern|
  {
    match node
    case Other(_) => node
    case Str(p) =>
      if pattern == [] then Str(RebasedText(p, base)) else node
    case Arr(ofTables, elems) =>
      if pattern != [] && pattern[0] == EACH_ELEMENT
      then Arr(ofTables, seq(|elems|, i requires 0 <= i < |elems| => Rebase(elems[i], pattern[1..], base)))
      else node
    case Tab(inline, entries) =>
      if pattern == [] then node
      else if pattern[0] == ANY_KEY
      then Tab(inline, map k | k in entries :: Rebase(entries[k], pattern[1..], base))
      else if pattern[0] in entries
      then Tab(inline, entries[pattern[0] := Rebase(entries[pattern[0]], pattern[1..], base)])
      else node
  }

  function RebaseAll(node: Node, patterns: seq<Pattern>, base: string): (r: Node)
  {
    if patterns == [] then node
    else Rebase(RebaseAll(node, patterns[..|patterns| - 1], base), patterns[|patterns| - 1], base)
  }

  /** A token command with no folder of its own runs in the config's folder: write that down. */
  function WithTokenFolder(provider: Node, base: string): (r: Node) {
    if provider.Tab? && "auth" in provider.entries && provider.entries["auth"].Tab?
       && "cwd" !in provider.entries["auth"].entries
    then
      var auth := provider.entries["auth"];
      provider.(entries := provider.entries["auth" := auth.(entries := auth.entries["cwd" := Str(base)])])
    else provider
  }

  function WithTokenFolders(root: Node, base: string): (r: Node) {
    if root.Tab? && "model_providers" in root.entries && root.entries["model_providers"].Tab? then
      var providers := root.entries["model_providers"];
      var filled := map k | k in providers.entries :: WithTokenFolder(providers.entries[k], base);
      root.(entries := root.entries["model_providers" := providers.(entries := filled)])
    else root
  }

  function Rewritten(root: Node, base: string): (r: Node) {
    WithTokenFolders(RebaseAll(root, RELATIVE_PATH_KEYS, base), base)
  }

  method RebaseRelativePaths(root: Node, base: string) returns (config: Node)
    ensures config == Rewritten(root, base)
  {
    config := root;
    for i := 0 to |RELATIVE_PATH_KEYS|
      invariant config == RebaseAll(root, RELATIVE_PATH_KEYS[..i], base)
    {
      config := Rebase(config, RELATIVE_PATH_KEYS[i], base);
      assert RELATIVE_PATH_KEYS[..i + 1][..i] == RELATIVE_PATH_KEYS[..i];
    }
    assert RELATIVE_PATH_KEYS[..|RELATIVE_PATH_KEYS|] == RELATIVE_PATH_KEYS;
    if !(config.Tab? && "model_providers" in config.entries && config.entries["model_providers"].Tab?) {
      return;
    }
    ghost var rebased := config;
    var providers := config.entries["model_providers"];
    var filled: map<string, Node> := map[];
    var left := providers.entries.Keys;
    while left != {}
      invariant left <= providers.entries.Keys
      invariant filled == map k | k in providers.entries && k !in left :: WithTokenFolder(providers.entries[k], base)
      decreases |left|
    {
      var k :| k in left;
      filled := filled[k := WithTokenFolder(providers.entries[k], base)];
      left := left - {k};
    }
    assert filled == map k | k in providers.entries :: WithTokenFolder(providers.entries[k], base);
    config := config.(entries := config.entries["model_providers" := providers.(entries := filled)]);
    assert config == WithTokenFolders(rebased, base);
  }

  // ---- Positions --------------------------------------------------------------------

  datatype Step = Key(name: string) | Index(i: nat)

  function At(node: Node, path: seq<Step>): (r: Option<Node>)
    decreases |path|
  {
    if path == [] then Some(node)
    else match (node, path[0])
      case (Tab(_, entries), Key(k)) => if k in entries then At(entries[k], path[1..]) else None
      case (Arr(_, elems), Index(i)) => if i < |elems| then At(elems[i], path[1..]) else None
      case _ => None
  }

  predicate StepMatches(p: string, step: Step) {
    match step
    case Key(k) => p == ANY_KEY || p == k
    case Index(_) => p == EACH_ELEMENT
  }

  predicate Reaches(pattern: Pattern, path: seq<Step>) {
    |pattern| == |path| && forall i :: 0 <= i < |path| ==> StepMatches(pattern[i], path[i])
  }

  predicate Matched(patterns: seq<Pattern>, path: seq<Step>) {
    exists i :: 0 <= i < |patterns| && Reaches(patterns[i], path)
  }

  /** What one pattern does at a position: the rest of the rewrite, or nothing. */
  function RebasedAt(n: Node, pattern: Pattern, path: seq<Step>, base: string): (r: Node) {
    if |path| <= |pattern| && Reaches(pattern[..|path|], path) then Rebase(n, pattern[|path|..], base) else n
  }

  lemma {:induction false} AtRebase(node: Node, pattern: Pattern, base: string, path: seq<Step>)
    ensures At(Rebase(node, pattern, base), path)
         == match At(node, path)
            case None => None
            case Some(n) => Some(RebasedAt(n, pattern, path, base))
    decreases |path|
  {
    if path == [] {
      assert pattern[0..] == pattern;
    } else if pattern == [] {
      assert Rebase(node, pattern, base) == node || node.Str?;
    } else {
      var next := Child(node, path[0]);
      if next.Some? {
        var rest := path[1..];
        AtRebase(next.value, pattern[1..], base, rest);
        ReachesCons(pattern, path);
        if |path| <= |pattern| {
          assert pattern[1..][|rest|..] == pattern[|path|..];
        }
      }
    }
  }

  function Child(node: Node, step: Step): (r: Option<Node>) {
    match (node, step)
    case (Tab(_, entries), Key(k)) => if k in entries then Some(entries[k]) else None
    case (Arr(_, elems), Index(i)) => if i < |elems| then Some(elems[i]) else None
    case _ => None
  }

  lemma ReachesCons(pattern: Pattern, path: seq<Step>)
    requires path != [] && pattern != []
    ensures |path| <= |pattern| ==>
      (Reaches(pattern[..|path|], path)
       <==> StepMatches(pattern[0], path[0]) && Reaches(pattern[1..][..|path| - 1], path[1..]))
  {
  }

  /** Same kind of node, with the same children. */
  predicate SameShape(a: Node, b: Node) {
    match (a, b)
    case (Str(_), Str(_)) => true
    case (Other(x), Other(y)) => x == y
    case (Arr(x, s), Arr(y, t)) => x == y && |s| == |t|
    case (Tab(x, s), Tab(y, t)) => x == y && s.Keys == t.Keys
    case _ => false
  }

  lemma RebaseShape(n: Node, pattern: Pattern, base: string)
    ensures SameShape(n, Rebase(n, pattern, base))
  {
  }

  /** The text of a leaf after rewriting by `patterns`. */
  ghost function LeafText(p: string, patterns: seq<Pattern>, path: seq<Step>, base: string): (r: string) {
    if Matched(patterns, path) then RebasedText(p, base) else p
  }

  /** The tree keeps its shape everywhere; exactly the matched texts are rebased. */
  lemma {:induction false} AtRebaseAll(node: Node, patterns: seq<Pattern>, base: string, path: seq<Step>)
    requires Absolute(base)
    ensures At(node, path).None? <==> At(RebaseAll(node, patterns, base), path).None?
    ensures At(node, path).Some? ==>
              var n, n' := At(node, path).value, At(RebaseAll(node, patterns, base), path).value;
              SameShape(n, n') && (n.Str? ==> n'.text == LeafText(n.text, patterns, path, base))
  {
    if patterns != [] {
      var k := |patterns| - 1;
      var before := RebaseAll(node, patterns[..k], base);
      AtRebaseAll(node, patterns[..k], base, path);
      AtRebase(before, patterns[k], base, path);
      if At(node, path).Some? {
        var n, m := At(node, path).value, At(before, path).value;
        var pattern := patterns[k];
        if |path| <= |pattern| && Reaches(pattern[..|path|], path) {
          RebaseShape(m, pattern[|path|..], base);
          if |path| == |pattern| {
            assert pattern[..|path|] == pattern;
          }
        }
        MatchedSnoc(patterns, path);
        if n.Str? {
          RebasedTextSettles(n.text, base, base);
        }
      }
    }
  }

  lemma MatchedSnoc(patterns: seq<Pattern>, path: seq<Step>)
    requires patterns != []
    ensures Matched(patterns, path)
       <==> Matched(patterns[..|patterns| - 1], path) || Reaches(patterns[|patterns| - 1], path)
  {
  }

  // ---- The provider folders -----------------------------------------------------------

  function AuthPath(provider: string): (path: seq<Step>)
    ensures |path| == 3
  {
    [Key("model_providers"), Key(provider), Key("auth")]
  }

  /** A provider whose token command names no folder. */
  predicate NeedsFolder(root: Node, provider: string) {
    var auth := At(root, AuthPath(provider));
    auth.Some? && auth.value.Tab? && "cwd" !in auth.value.entries
  }

  predicate IsNewFolder(root: Node, path: seq<Step>) {
    |path| == 4 && path[1].Key? && path == AuthPath(path[1].name) + [Key("cwd")] && NeedsFolder(root, path[1].name)
  }

  predicate IsFilledAuth(root: Node, path: seq<Step>) {
    |path| == 3 && path[1].Key? && path == AuthPath(path[1].name) && NeedsFolder(root, path[1].name)
  }

  /** `a` became `b` by gaining a folder and nothing else. */
  predicate GainedFolder(a: Node, b: Node, base: string) {
    a.Tab? && b == a.(entries := a.entries["cwd" := Str(base)])
  }

  lemma AtAuth(root: Node, provider: string)
    ensures At(root, AuthPath(provider))
         == (if root.Tab? && "model_providers" in root.entries && root.entries["model_providers"].Tab?
                && provider in root.entries["model_providers"].entries
             then At(root.entries["model_providers"].entries[provider], [Key("auth")])
             else None)
  {
  }

  /** Inside one provider: its auth table gains a folder if it had none; nothing else moves. */
  lemma AtProvider(provider: Node, base: string, path: seq<Step>)
    ensures var auth := At(provider, [Key("auth")]);
            var needs := auth.Some? && auth.value.Tab? && "cwd" !in auth.value.entries;
            var before, after := At(provider, path), At(WithTokenFolder(provider, base), path);
            if needs && path == [Key("auth"), Key("cwd")] then before.None? && after == Some(Str(base))
            else if needs && path == [Key("auth")] then after.Some? && GainedFolder(auth.value, after.value, base)
            else before.None? == after.None?
                 && (before.Some? ==> SameShape(before.value, after.value)
                                      && (before.value.Str? ==> before == after))
  {
    var auth := At(provider, [Key("auth")]);
    assert [Key("auth")][1..] == [];
    if auth.Some? && auth.value.Tab? && "cwd" !in auth.value.entries && path != [] && path[0] == Key("auth") {
      var rest := path[1..];
      if rest == [] {
        assert path == [Key("auth")];
      } else {
        var filled := WithTokenFolder(provider, base).entries["auth"];
        assert At(WithTokenFolder(provider, base), path) == At(filled, rest);
        if rest[0] == Key("cwd") {
          assert path == [Key("auth"), Key("cwd")] + rest[1..];
          assert At(filled, rest) == At(Str(base), rest[1..]);
        }
      }
    }
  }

  lemma AtTokenFolders(root: Node, base: string, path: seq<Step>)
    ensures var before, after := At(root, path), At(WithTokenFolders(root, base), path);
            if IsNewFolder(root, path) then before.None? && after == Some(Str(base))
            else if IsFilledAuth(root, path)
            then before.Some? && after.Some? && GainedFolder(before.value, after.value, base)
            else before.None? == after.None?
                 && (before.Some? ==> SameShape(before.value, after.value)
                                      && (before.value.Str? ==> before == after))
  {
    if |path| >= 2 && path[0] == Key("model_providers") && path[1].Key? {
      var provider := path[1].name;
      var rest := path[2..];
      assert path[1..][1..] == rest;
      AtAuth(root, provider);
      assert path == [path[0], path[1]] + rest;
      assert rest == [Key("auth")] <==> path == AuthPath(provider);
      assert rest == [Key("auth"), Key("cwd")] <==> path == AuthPath(provider) + [Key("cwd")];
      if root.Tab? && "model_providers" in root.entries && root.entries["model_providers"].Tab?
         && provider in root.entries["model_providers"].entries {
        AtProvider(root.entries["model_providers"].entries[provider], base, rest);
      }
    }
  }

  // ---- What the whole rewrite does -----------------------------------------------------

  /** The folder a provider's token command runs in, read from `folder`'s config. */
  function TokenFolder(root: Node, provider: string, folder: string): (r: Option<Place>) {
    var auth := At(root, AuthPath(provider));
    if auth.None? || !auth.value.Tab? then None
    else if "cwd" !in auth.value.entries then Some(File(Components(folder)))
    else if auth.value.entries["cwd"].Str? then Some(Resolve(auth.value.entries["cwd"].text, folder))
    else None
  }

  lemma NeedsFolderKept(root: Node, base: string, provider: string)
    requires Absolute(base)
    ensures NeedsFolder(root, provider) <==> NeedsFolder(RebaseAll(root, RELATIVE_PATH_KEYS, base), provider)
  {
    AtRebaseAll(root, RELATIVE_PATH_KEYS, base, AuthPath(provider));
  }

  /** At every position: rebased text where the key table says so, the new folders, and nothing else. */
  lemma AtRewritten(root: Node, base: string, path: seq<Step>)
    requires Absolute(base)
    ensures var before, after := At(root, path), At(Rewritten(root, base), path);
            if IsNewFolder(root, path) then before.None? && after == Some(Str(base))
            else before.None? == after.None?
                 && (before.Some? ==>
                       if IsFilledAuth(root, path)
                       then before.value.Tab? && after.value.Tab?
                            && after.value.inline == before.value.inline
                            && after.value.entries.Keys == before.value.entries.Keys + {"cwd"}
                       else SameShape(before.value, after.value)
                            && (before.value.Str? ==>
                                  after.value.text == LeafText(before.value.text, RELATIVE_PATH_KEYS, path, base)))
  {
    var mid := RebaseAll(root, RELATIVE_PATH_KEYS, base);
    AtRebaseAll(root, RELATIVE_PATH_KEYS, base, path);
    AtTokenFolders(mid, base, path);
    if |path| >= 2 && path[1].Key? {
      NeedsFolderKept(root, base, path[1].name);
    }
  }

  /** Every matched path names from the window's home what it named from the user's. */
  lemma MeaningPreserved(root: Node, base: string, window: string, path: seq<Step>)
    requires Absolute(base)
    requires Matched(RELATIVE_PATH_KEYS, path) && At(root, path).Some? && At(root, path).value.Str?
    ensures var after := At(Rewritten(root, base), path);
            after.Some? && after.value.Str?
            && Resolve(after.value.text, window) == Resolve(At(root, path).value.text, base)
  {
    AtRewritten(root, base, path);
    RebasedTextSettles(At(root, path).value.text, base, window);
  }

  lemma CwdIsMatched(provider: string)
    ensures Matched(RELATIVE_PATH_KEYS, AuthPath(provider) + [Key("cwd")])
  {
    var path := AuthPath(provider) + [Key("cwd")];
    assert Reaches(RELATIVE_PATH_KEYS[15], path);
  }

  /** Every provider's token command runs in the same folder as before. */
  lemma TokenFolderPreserved(root: Node, base: string, window: string, provider: string)
    requires Absolute(base)
    ensures TokenFolder(Rewritten(root, base), provider, window) == TokenFolder(root, provider, base)
  {
    var auth := AuthPath(provider);
    AtRewritten(root, base, auth);
    AtRewritten(root, base, auth + [Key("cwd")]);
    AtThen(root, auth, Key("cwd"));
    AtThen(Rewritten(root, base), auth, Key("cwd"));
    CwdIsMatched(provider);
    var cwd := At(root, auth + [Key("cwd")]);
    if cwd.Some? && cwd.value.Str? {
      RebasedTextSettles(cwd.value.text, base, window);
    }
    RebasedTextSettles(base, base, window);
  }

  lemma {:induction false} AtThen(node: Node, path: seq<Step>, step: Step)
    ensures At(node, path + [step]) == (if At(node, path).None? then None else Child(At(node, path).value, step))
    decreases |path|
  {
    if path == [] {
      assert (path + [step])[1..] == [];
    } else {
      assert (path + [step])[1..] == path[1..] + [step];
      var next := Child(node, path[0]);
      if next.Some? {
        AtThen(next.value, path[1..], step);
      }
    }
  }

  // ---- Rewriting twice -------------------------------------------------------------------

  /** Every text the pattern reaches is already as it should be. */
  ghost predicate Settled(node: Node, pattern: Pattern, base: string) {
    forall path :: Reaches(pattern, path) && At(node, path).Some? && At(node, path).value.Str?
                   ==> RebasedText(At(node, path).value.text, base) == At(node, path).value.text
  }

  lemma {:induction false} RebaseSettled(node: Node, pattern: Pattern, base: string)
    requires Settled(node, pattern, base)
    ensures Rebase(node, pattern, base) == node
    decreases |pattern|
  {
    if pattern == [] {
      assert Reaches(pattern, []) && At(node, []) == Some(node);
    } else {
      match node {
        case Arr(_, elems) =>
          if pattern[0] == EACH_ELEMENT {
            forall i | 0 <= i < |elems| ensures Rebase(elems[i], pattern[1..], base) == elems[i] {
              SettledBelow(node, pattern, base, Index(i));
              RebaseSettled(elems[i], pattern[1..], base);
            }
          }
        case Tab(_, entries) =>
          forall k | k in entries && StepMatches(pattern[0], Key(k))
            ensures Rebase(entries[k], pattern[1..], base) == entries[k]
          {
            SettledBelow(node, pattern, base, Key(k));
            RebaseSettled(entries[k], pattern[1..], base);
          }
        case _ =>
      }
    }
  }

  lemma SettledBelow(node: Node, pattern: Pattern, base: string, step: Step)
    requires Settled(node, pattern, base) && pattern != []
    requires StepMatches(pattern[0], step) && Child(node, step).Some?
    ensures Settled(Child(node, step).value, pattern[1..], base)
  {
    var child := Child(node, step).value;
    forall path | Reaches(pattern[1..], path) && At(child, path).Some? && At(child, path).value.Str?
      ensures RebasedText(At(child, path).value.text, base) == At(child, path).value.text
    {
      var whole := [step] + path;
      assert whole[1..] == path;
      assert pattern[..|whole|] == pattern && pattern[1..][..|whole| - 1] == pattern[1..];
      ReachesCons(pattern, whole);
      assert At(node, whole) == At(child, path);
    }
  }

  lemma {:induction false} RebaseAllSettled(node: Node, patterns: seq<Pattern>, base: string)
    requires forall i :: 0 <= i < |patterns| ==> Settled(node, patterns[i], base)
    ensures RebaseAll(node, patterns, base) == node
  {
    if patterns != [] {
      RebaseAllSettled(node, patterns[..|patterns| - 1], base);
      RebaseSettled(node, patterns[|patterns| - 1], base);
    }
  }

  /** Rewriting twice equals rewriting once. */
  lemma RewritingIsIdempotent(root: Node, base: string)
    requires Absolute(base)
    ensures Rewritten(Rewritten(root, base), base) == Rewritten(root, base)
  {
    var done := Rewritten(root, base);
    forall i | 0 <= i < |RELATIVE_PATH_KEYS| ensures Settled(done, RELATIVE_PATH_KEYS[i], base) {
      RewrittenSettles(root, base, i);
    }
    RebaseAllSettled(done, RELATIVE_PATH_KEYS, base);
    FoldersStay(RebaseAll(root, RELATIVE_PATH_KEYS, base), base);
  }

  lemma RewrittenSettles(root: Node, base: string, i: nat)
    requires Absolute(base) && i < |RELATIVE_PATH_KEYS|
    ensures Settled(Rewritten(root, base), RELATIVE_PATH_KEYS[i], base)
  {
    var done := Rewritten(root, base);
    forall path | Reaches(RELATIVE_PATH_KEYS[i], path) && At(done, path).Some? && At(done, path).value.Str?
      ensures RebasedText(At(done, path).value.text, base) == At(done, path).value.text
    {
      AtRewritten(root, base, path);
      assert Matched(RELATIVE_PATH_KEYS, path);
      if !IsNewFolder(root, path) {
        RebasedTextSettles(At(root, path).value.text, base, base);
      }
    }
  }

  lemma FoldersStay(root: Node, base: string)
    ensures WithTokenFolders(WithTokenFolders(root, base), base) == WithTokenFolders(root, base)
  {
    var once := WithTokenFolders(root, base);
    if root.Tab? && "model_providers" in root.entries && root.entries["model_providers"].Tab? {
      var filled := once.entries["model_providers"].entries;
      assert forall k :: k in filled ==> WithTokenFolder(filled[k], base) == filled[k];
      assert (map k | k in filled :: WithTokenFolder(filled[k], base)) == filled;
    }
  }

  // ---- The `[]` marker -----------------------------------------------------------------------

  /** The key table as its comment means it: `[]` stands for array elements only. */
  predicate StepIntended(p: string, step: Step) {
    match step
    case Key(k) => p != EACH_ELEMENT && (p == ANY_KEY || p == k)
    case Index(_) => p == EACH_ELEMENT
  }

  predicate Intended(pattern: Pattern, path: seq<Step>) {
    |pattern| == |path| && forall i :: 0 <= i < |path| ==> StepIntended(pattern[i], path[i])
  }

  /** The code reaches exactly the intended positions unless `[]` is literally a key on the way. */
  lemma ReachesAsIntended(pattern: Pattern, path: seq<Step>)
    ensures Reaches(pattern, path) ==>
              (Intended(pattern, path)
               <==> forall i :: 0 <= i < |path| && pattern[i] == EACH_ELEMENT ==> path[i] != Key(EACH_ELEMENT))
    ensures Intended(pattern, path) ==> Reaches(pattern, path)
  {
  }

  /** Where the configuration holds a path, written out. */
  predicate HoldsPath(path: seq<Step>) {
    match |path|
    case 1 =>
      path[0] in {Key("model_instructions_file"), Key("experimental_compact_prompt_file"), Key("model_catalog_json"),
                  Key("sqlite_home"), Key("log_dir"), Key("js_repl_node_path")}
    case 2 => path[0] == Key("js_repl_node_module_dirs") && path[1].Index?
    case 3 =>
      || (path[0] == Key("profiles") && path[1].Key?
          && path[2] in {Key("model_instructions_file"), Key("experimental_compact_prompt_file"),
                         Key("model_catalog_json"), Key("js_repl_node_path")})
      || (path[0] == Key("agents") && path[1].Key? && path[2] == Key("config_file"))
      || (path[0] == Key("sandbox_workspace_write") && path[1] == Key("writable_roots") && path[2].Index?)
    case 4 =>
      || (path[0] == Key("profiles") && path[1].Key? && path[2] == Key("js_repl_node_module_dirs") && path[3].Index?)
      || (path[0] == Key("skills") && path[1] == Key("config") && path[2].Index? && path[3] == Key("path"))
      || (path[0] == Key("model_providers") && path[1].Key? && path[2] == Key("auth") && path[3] == Key("cwd"))
    case 5 =>
      && path[0] == Key("otel") && path[1].Key? && path[2].Key? && path[3] == Key("tls")
      && path[4] in {Key("ca-certificate"), Key("client-certificate"), Key("client-private-key")}
    case _ => false
  }

  /** The key table matches exactly these positions, no key on the way being literally `[]`. */
  lemma KeyTableMeans(path: seq<Step>)
    requires Key(EACH_ELEMENT) !in path
    ensures Matched(RELATIVE_PATH_KEYS, path) <==> HoldsPath(path)
  {
    if HoldsPath(path) {
      PathIsMatched(path);
    }
    if Matched(RELATIVE_PATH_KEYS, path) {
      var i :| 0 <= i < |RELATIVE_PATH_KEYS| && Reaches(RELATIVE_PATH_KEYS[i], path);
      MatchHoldsPath(i, path);
    }
  }

  lemma PathIsMatched(path: seq<Step>)
    requires HoldsPath(path)
    ensures exists i :: 0 <= i < |RELATIVE_PATH_KEYS| && Reaches(RELATIVE_PATH_KEYS[i], path)
  {
    var keys := RELATIVE_PATH_KEYS;
    match |path|
    case 1 => assert exists i :: 0 <= i < 6 && Reaches(keys[i], path) by {
        assert || Reaches(keys[0], path) || Reaches(keys[1], path) || Reaches(keys[2], path) || Reaches(keys[3], path)
               || Reaches(keys[4], path) || Reaches(keys[5], path);
      }
    case 2 => assert Reaches(keys[6], path);
    case 3 => assert || Reaches(keys[7], path) || Reaches(keys[8], path) || Reaches(keys[9], path)
                     || Reaches(keys[10], path) || Reaches(keys[12], path) || Reaches(keys[14], path);
    case 4 => assert Reaches(keys[11], path) || Reaches(keys[13], path) || Reaches(keys[15], path);
    case 5 => assert Reaches(keys[16], path) || Reaches(keys[17], path) || Reaches(keys[18], path);
  }

  lemma MatchHoldsPath(i: nat, path: seq<Step>)
    requires i < |RELATIVE_PATH_KEYS| && Reaches(RELATIVE_PATH_KEYS[i], path) && Key(EACH_ELEMENT) !in path
    ensures HoldsPath(path)
  {
    var pattern := RELATIVE_PATH_KEYS[i];
    forall j | 0 <= j < |path| ensures StepMatches(pattern[j], path[j]) && path[j] != Key(EACH_ELEMENT) {
      assert path[j] in path;
    }
  }

  /** A table key spelled `[]` is rewritten although it is no array element. */
  lemma BracketKeyIsRewritten(base: string)
    requires Absolute(base)
    ensures var root := Tab(false, map["js_repl_node_module_dirs" := Tab(true, map["[]" := Str("x")])]);
            var path := [Key("js_repl_node_module_dirs"), Key("[]")];
            !(exists i :: 0 <= i < |RELATIVE_PATH_KEYS| && Intended(RELATIVE_PATH_KEYS[i], path))
            && At(root, path) == Some(Str("x")) && At(Rewritten(root, base), path) == Some(Str(Join(base, "x")))
  {
    var dirs := Tab(true, map["[]" := Str("x")]);
    var root := Tab(false, map["js_repl_node_module_dirs" := dirs]);
    var path := [Key("js_repl_node_module_dirs"), Key("[]")];
    assert path[1..] == [Key("[]")] && path[1..][1..] == [];
    assert At(dirs, path[1..]) == Some(Str("x"));
    assert Reaches(RELATIVE_PATH_KEYS[6], path);
    AtRewritten(root, base, path);
    forall i | 0 <= i < |RELATIVE_PATH_KEYS| ensures !Intended(RELATIVE_PATH_KEYS[i], path) {
      if |RELATIVE_PATH_KEYS[i]| == 2 {
        assert !StepIntended(RELATIVE_PATH_KEYS[i][1], path[1]);
      }
    }
  }
}
