/** The host's path dispatch and the paths it publishes (src/niuu/app.py:226-263, 308-320, 368-388). */
module HostPaths {
  import opened Text

  /** A mounted plugin: its public prefix, and the plugin whose application serves it. */
  datatype Mount = Mount(prefix: string, plugin: string)

  const BIFROST: string := "/api/v1/bifrost"
  const MIMIR: string := "/api/v1/mimir"
  const MIMIR_MCP: string := "/api/v1/mimir/mcp"

  /** The path is the prefix or continues it on a segment boundary. */
  predicate Serves(prefix: string, path: string) {
    path == prefix || prefix + "/" <= path
  }

  // ---- Dispatch ----

  /** Inserts behind every mount whose prefix is at least as long. */
  function InsertByLength(m: Mount, sorted: seq<Mount>): seq<Mount> {
    if sorted == [] || |sorted[0].prefix| < |m.prefix| then [m] + sorted
    else [sorted[0]] + InsertByLength(m, sorted[1..])
  }

  /** `sorted(…, key=len, reverse=True)`: longest first, registration order among equals. */
  function SortByLength(mounts: seq<Mount>): seq<Mount> {
    if mounts == [] then [] else InsertByLength(mounts[|mounts| - 1], SortByLength(mounts[..|mounts| - 1]))
  }

  function FirstServing(mounts: seq<Mount>, path: string): Option<Mount> {
    if mounts == [] then None
    else if Serves(mounts[0].prefix, path) then Some(mounts[0])
    else FirstServing(mounts[1..], path)
  }

  /** Mount `i` serves the path, with a prefix longer than any other and registered before its equals. */
  predicate Wins(mounts: seq<Mount>, path: string, i: nat) {
    && i < |mounts| && Serves(mounts[i].prefix, path)
    && forall j | 0 <= j < |mounts| && Serves(mounts[j].prefix, path) ::
      |mounts[j].prefix| < |mounts[i].prefix| || (|mounts[j].prefix| == |mounts[i].prefix| && i <= j)
  }

  predicate LongestFirst(mounts: seq<Mount>) {
    forall i, j | 0 <= i < j < |mounts| :: |mounts[i].prefix| >= |mounts[j].prefix|
  }

  lemma {:induction false} InsertMembers(m: Mount, sorted: seq<Mount>)
    ensures multiset(InsertByLength(m, sorted)) == multiset(sorted) + multiset{m}
  {
    if sorted != [] && |sorted[0].prefix| >= |m.prefix| {
      InsertMembers(m, sorted[1..]);
      assert sorted == [sorted[0]] + sorted[1..];
    }
  }

  lemma {:induction false} InsertKeepsOrder(m: Mount, sorted: seq<Mount>)
    requires LongestFirst(sorted)
    ensures LongestFirst(InsertByLength(m, sorted))
  {
    if sorted != [] && |sorted[0].prefix| >= |m.prefix| {
      var rest := InsertByLength(m, sorted[1..]);
      InsertKeepsOrder(m, sorted[1..]);
      InsertMembers(m, sorted[1..]);
      forall x | x in rest ensures |sorted[0].prefix| >= |x.prefix| {
        assert x in multiset(rest);
        assert x == m || x in sorted[1..];
      }
      FirstInOrder(sorted[0], rest);
    }
  }

  lemma FirstInOrder(m: Mount, rest: seq<Mount>)
    requires LongestFirst(rest) && forall x | x in rest :: |m.prefix| >= |x.prefix|
    ensures LongestFirst([m] + rest)
  {
  }

  lemma {:induction false} SortedLongestFirst(mounts: seq<Mount>)
    ensures LongestFirst(SortByLength(mounts))
  {
    if mounts != [] {
      SortedLongestFirst(mounts[..|mounts| - 1]);
      InsertKeepsOrder(mounts[|mounts| - 1], SortByLength(mounts[..|mounts| - 1]));
    }
  }

  lemma {:induction false} FirstIsLongest(mounts: seq<Mount>, path: string)
    requires LongestFirst(mounts)
    ensures FirstServing(mounts, path).Some? ==>
      forall m | m in mounts && Serves(m.prefix, path) :: |m.prefix| <= |FirstServing(mounts, path).value.prefix|
  {
    if mounts != [] {
      FirstIsLongest(mounts[1..], path);
      assert mounts == [mounts[0]] + mounts[1..];
    }
  }

  /** An inserted mount takes a path over only from strictly shorter prefixes. */
  lemma {:induction false} FirstOfInsert(m: Mount, sorted: seq<Mount>, path: string)
    requires LongestFirst(sorted)
    ensures var was := FirstServing(sorted, path);
      FirstServing(InsertByLength(m, sorted), path)
        == if Serves(m.prefix, path) && (was.None? || |was.value.prefix| < |m.prefix|) then Some(m) else was
  {
    hide Serves;
    if sorted != [] && |sorted[0].prefix| >= |m.prefix| {
      FirstOfInsert(m, sorted[1..], path);
      FirstIsLongest(sorted, path);
    } else if sorted != [] {
      FirstIsLongest(sorted, path);
      ShorterThanInserted(m, sorted, path);
    }
  }

  lemma {:induction false} ShorterThanInserted(m: Mount, sorted: seq<Mount>, path: string)
    requires LongestFirst(sorted) && sorted != [] && |sorted[0].prefix| < |m.prefix|
    ensures FirstServing(sorted, path).Some? ==> |FirstServing(sorted, path).value.prefix| < |m.prefix|
  {
    hide Serves;
    if |sorted| > 1 && !Serves(sorted[0].prefix, path) {
      assert sorted[1] == sorted[1..][0];
      ShorterThanInserted(m, sorted[1..], path);
    }
  }

  /** The sorted list is searched to the mount that wins, and fails only when none serves the path. */
  lemma {:induction false} DispatchPicksWinner(mounts: seq<Mount>, path: string)
    ensures FirstServing(SortByLength(mounts), path).None? <==> forall m | m in mounts :: !Serves(m.prefix, path)
    ensures FirstServing(SortByLength(mounts), path).Some? ==>
      exists i: nat | Wins(mounts, path, i) :: mounts[i] == FirstServing(SortByLength(mounts), path).value
  {
    hide Serves;
    if mounts != [] {
      var init, m := mounts[..|mounts| - 1], mounts[|mounts| - 1];
      assert mounts == init + [m];
      DispatchPicksWinner(init, path);
      SortedLongestFirst(init);
      FirstOfInsert(m, SortByLength(init), path);
      var was, now := FirstServing(SortByLength(init), path), FirstServing(SortByLength(mounts), path);
      if now.Some? {
        if was.Some? {
          var i: nat :| Wins(init, path, i) && init[i] == was.value;
          if now == was && !(Serves(m.prefix, path) && |was.value.prefix| < |m.prefix|) {
            assert Wins(mounts, path, i);
          } else {
            assert Wins(mounts, path, |init|);
          }
        } else {
          assert Wins(mounts, path, |init|);
        }
      }
    }
  }

  lemma WinnerIsUnique(mounts: seq<Mount>, path: string, i: nat, j: nat)
    requires Wins(mounts, path, i) && Wins(mounts, path, j)
    ensures i == j
  {
    hide Serves;
  }

  /** The path without the matched prefix. */
  function StripPrefix(prefix: string, path: string): string
    requires Serves(prefix, path)
  {
    path[|prefix|..]
  }

  class Dispatcher {
    const mounts: seq<Mount>
    ghost const registered: seq<Mount>

    constructor (prefixApps: seq<Mount>)
      ensures registered == prefixApps && mounts == SortByLength(prefixApps)
    {
      mounts := SortByLength(prefixApps);
      registered := prefixApps;
    }

    /** The mount that a path goes to and the path it is handed; `None` falls through to the host. */
    method Dispatch(path: string) returns (r: Option<(Mount, string)>)
      requires mounts == SortByLength(registered)
      ensures r.None? <==> forall m | m in registered :: !Serves(m.prefix, path)
      ensures r.Some? ==> exists i: nat | Wins(registered, path, i) ::
        r.value == (registered[i], StripPrefix(registered[i].prefix, path))
    {
      hide Serves, Wins, SortByLength;
      DispatchPicksWinner(registered, path);
      for i := 0 to |mounts|
        invariant FirstServing(mounts, path) == FirstServing(mounts[i..], path)
      {
        assert mounts[i..][1..] == mounts[i + 1..];
        var prefix := mounts[i].prefix;
        ServesMeans(prefix, path);
        if path != prefix && !(prefix + "/" <= path) {
          continue;
        }
        WinnersServe(registered, path);
        return Some((mounts[i], path[|prefix|..]));
      }
      return None;
    }
  }

  lemma ServesMeans(prefix: string, path: string)
    ensures Serves(prefix, path) <==> path == prefix || prefix + "/" <= path
    ensures Serves(prefix, path) ==> prefix <= path && StripPrefix(prefix, path) == path[|prefix|..]
  {
    if prefix + "/" <= path { assert prefix <= prefix + "/"; }
  }

  lemma WinnersServe(mounts: seq<Mount>, path: string)
    ensures forall i: nat | Wins(mounts, path, i) :: i < |mounts| && Serves(mounts[i].prefix, path)
  {
  }

  // ---- Backend prefixes ----

  function BackendPrefix(plugin: string, publicPrefix: string): string {
    if plugin == "bifrost" && publicPrefix == BIFROST then ""
    else if plugin == "bifrost" && BIFROST + "/" <= publicPrefix then publicPrefix[|BIFROST|..]
    else if plugin == "mimir" && MIMIR_MCP <= publicPrefix then ReplaceFirst(publicPrefix, MIMIR_MCP, "/mcp")
    else if plugin == "mimir" && MIMIR <= publicPrefix then ReplaceFirst(publicPrefix, MIMIR, "/mimir")
    else publicPrefix
  }

  lemma ReplaceLeading(s: string, p: string, n: string)
    requires p <= s
    ensures ReplaceFirst(s, p, n) == n + s[|p|..]
  {
    assert Before(s, p) == "";
    assert "" + n + s[|p|..] == n + s[|p|..];
  }

  /** The backend prefix is empty for one mount of the gateway, and otherwise only for an empty public prefix. */
  lemma EmptyBackendPrefix(plugin: string, publicPrefix: string)
    ensures BackendPrefix(plugin, publicPrefix) == "" <==>
      (plugin == "bifrost" && publicPrefix == BIFROST) || publicPrefix == ""
  {
    if plugin == "mimir" && MIMIR_MCP <= publicPrefix {
      ReplaceLeading(publicPrefix, MIMIR_MCP, "/mcp");
    } else if plugin == "mimir" && MIMIR <= publicPrefix {
      ReplaceLeading(publicPrefix, MIMIR, "/mimir");
    }
  }

  /**
   What each plugin serves a public prefix under: the gateway and the wiki have prefixes of their own, all
   others the same.
   */
  lemma PrefixesOfPlugins(plugin: string, prefix: string, tail: string)
    ensures plugin != "bifrost" && plugin != "mimir" ==> BackendPrefix(plugin, prefix) == prefix
    ensures tail == "" || tail[0] == '/' ==> BackendPrefix("bifrost", "/api/v1/bifrost" + tail) == tail
    ensures prefix != "/api/v1/bifrost" && !("/api/v1/bifrost/" <= prefix) ==>
      BackendPrefix("bifrost", prefix) == prefix
    ensures BackendPrefix("mimir", "/api/v1/mimir/mcp" + tail) == "/mcp" + tail
    ensures !("/mcp" <= tail) ==> BackendPrefix("mimir", "/api/v1/mimir" + tail) == "/mimir" + tail
    ensures !("/api/v1/mimir" <= prefix) ==> BackendPrefix("mimir", prefix) == prefix
  {
    PluginPrefix(BIFROST, tail);
    PluginPrefix(MIMIR_MCP, tail);
    PluginPrefix(MIMIR, tail);
    ReplaceLeading(MIMIR_MCP + tail, MIMIR_MCP, "/mcp");
    ReplaceLeading(MIMIR + tail, MIMIR, "/mimir");
    InnerPrefix(tail);
    SlashBehind(tail, prefix);
  }

  lemma PluginPrefix(p: string, tail: string)
    ensures p <= p + tail && (p + tail)[|p|..] == tail && (p + tail == p <==> tail == "")
  {
  }

  lemma InnerPrefix(tail: string)
    ensures MIMIR_MCP <= MIMIR + tail <==> "/mcp" <= tail
    ensures MIMIR_MCP <= MIMIR_MCP + tail && !(BIFROST <= MIMIR)
  {
    assert MIMIR_MCP == MIMIR + "/mcp";
    var s := MIMIR + tail;
    if MIMIR + "/mcp" <= s { assert "/mcp" == (MIMIR + "/mcp")[|MIMIR|..] == s[|MIMIR|..][..4]; }
    if "/mcp" <= tail { assert s == MIMIR + "/mcp" + tail[4..]; }
    assert BIFROST[8] == 'b' && MIMIR[8] == 'm';
  }

  lemma SlashBehind(tail: string, prefix: string)
    ensures tail != "" && tail[0] == '/' ==> BIFROST + "/" <= BIFROST + tail
    ensures BIFROST + "/" == "/api/v1/bifrost/"
    ensures MIMIR_MCP <= prefix ==> MIMIR <= prefix
  {
    if tail != "" && tail[0] == '/' { assert BIFROST + tail == BIFROST + "/" + tail[1..]; }
    if MIMIR_MCP <= prefix { assert MIMIR == MIMIR_MCP[..|MIMIR|] == prefix[..|MIMIR|]; }
  }

  function RestorePrefix(prefix: string, path: string): string {
    prefix + path
  }

  /** The public path of a plugin's own path; `None` is a path that the mount does not publish. */
  function PublicPath(plugin: string, publicPrefix: string, backendPath: string): Option<string> {
    var backend := BackendPrefix(plugin, publicPrefix);
    if backend != "" then
      if backendPath == backend then Some(publicPrefix)
      else if backend + "/" <= backendPath then Some(publicPrefix + backendPath[|backend|..])
      else None
    else if !("/" <= backendPath) then None
    else if backendPath == "/" then Some(publicPrefix)
    else Some(publicPrefix + backendPath)
  }

  /** The backend path that the mount's application sees for a public path. */
  function Delivered(m: Mount, path: string): string
    requires Serves(m.prefix, path)
  {
    RestorePrefix(BackendPrefix(m.plugin, m.prefix), StripPrefix(m.prefix, path))
  }

  lemma ServedTail(prefix: string, tail: string)
    ensures Serves(prefix, prefix + tail) <==> tail == "" || "/" <= tail
    ensures Serves(prefix, prefix + tail) ==> StripPrefix(prefix, prefix + tail) == tail
  {
    var s := prefix + tail;
    if tail == "" {
      assert s == prefix;
    } else if "/" <= tail {
      assert s == prefix + "/" + tail[1..];
      assert s[|prefix|..] == tail;
    }
  }

  lemma ServesTail(prefix: string, path: string)
    requires Serves(prefix, path)
    ensures path == prefix + StripPrefix(prefix, path)
    ensures StripPrefix(prefix, path) == "" || "/" <= StripPrefix(prefix, path)
  {
    ServesMeans(prefix, path);
    ServedTail(prefix, path[|prefix|..]);
    assert path == prefix + path[|prefix|..];
  }

  /**
   For a mount with a backend prefix, publishing a path and delivering it are mutual inverses: exactly the
   backend paths under that prefix are published, and every path that the mount serves is the publication
   of what it delivers.
   */
  lemma PublishDeliverInverse(m: Mount, backendPath: string, path: string)
    requires BackendPrefix(m.plugin, m.prefix) != ""
    ensures var p := PublicPath(m.plugin, m.prefix, backendPath);
      && (p.Some? <==> Serves(BackendPrefix(m.plugin, m.prefix), backendPath))
      && (p.Some? ==> Serves(m.prefix, p.value) && Delivered(m, p.value) == backendPath)
    ensures Serves(m.prefix, path) ==> PublicPath(m.plugin, m.prefix, Delivered(m, path)) == Some(path)
  {
    hide BackendPrefix, Serves;
    var backend := BackendPrefix(m.plugin, m.prefix);
    ServesMeans(backend, backendPath);
    if Serves(backend, backendPath) {
      ServesTail(backend, backendPath);
      var tail := StripPrefix(backend, backendPath);
      ServedTail(m.prefix, tail);
      assert tail == "" ==> m.prefix + tail == m.prefix;
    }
    if Serves(m.prefix, path) {
      ServesTail(m.prefix, path);
      var tail := StripPrefix(m.prefix, path);
      ServedTail(backend, tail);
      ServesMeans(backend, backend + tail);
      assert tail == "" ==> backend + tail == backend && m.prefix + tail == m.prefix;
      assert (backend + tail)[|backend|..] == tail;
    }
  }

  /** For a mount without one, the round trip fails at the backend root alone, and at the two public spellings of it. */
  lemma PublishDeliverRoot(m: Mount, backendPath: string, path: string)
    requires BackendPrefix(m.plugin, m.prefix) == ""
    ensures var p := PublicPath(m.plugin, m.prefix, backendPath);
      && (p.Some? <==> "/" <= backendPath)
      && (p.Some? ==> Serves(m.prefix, p.value) && (Delivered(m, p.value) == backendPath <==> backendPath != "/"))
    ensures Serves(m.prefix, path) ==>
      (PublicPath(m.plugin, m.prefix, Delivered(m, path)) == Some(path) <==> path != m.prefix && path != m.prefix + "/")
  {
    hide BackendPrefix, Serves;
    ServedTail(m.prefix, "");
    assert m.prefix + "" == m.prefix;
    if "/" <= backendPath {
      ServedTail(m.prefix, backendPath);
    }
    if Serves(m.prefix, path) {
      ServesTail(m.prefix, path);
      assert RestorePrefix("", StripPrefix(m.prefix, path)) == StripPrefix(m.prefix, path);
    }
  }

  // ---- Published paths dispatch back ----

  /** Where a public path ends up: the plugin and the path it is handed. */
  function Deliver(mounts: seq<Mount>, path: string): Option<(string, string)> {
    match FirstServing(SortByLength(mounts), path)
    case None => None
    case Some(m) => FirstServes(SortByLength(mounts), path); Some((m.plugin, Delivered(m, path)))
  }

  lemma {:induction false} FirstServes(mounts: seq<Mount>, path: string)
    ensures FirstServing(mounts, path).Some? ==> Serves(FirstServing(mounts, path).value.prefix, path)
  {
    if mounts != [] { FirstServes(mounts[1..], path); }
  }

  lemma WinnerDelivers(mounts: seq<Mount>, path: string, i: nat)
    requires Wins(mounts, path, i)
    ensures Deliver(mounts, path) == Some((mounts[i].plugin, Delivered(mounts[i], path)))
  {
    hide Serves, SortByLength, BackendPrefix;
    DispatchPicksWinner(mounts, path);
    var m := FirstServing(SortByLength(mounts), path);
    assert mounts[i] in mounts;
    var j: nat :| Wins(mounts, path, j) && mounts[j] == m.value;
    WinnerIsUnique(mounts, path, i, j);
  }

  /** A published path continues its public prefix by what the backend path has behind the backend prefix. */
  lemma PublishedTail(m: Mount, backendPath: string) returns (tail: string)
    requires PublicPath(m.plugin, m.prefix, backendPath).Some?
    ensures PublicPath(m.plugin, m.prefix, backendPath).value == m.prefix + tail && Serves(m.prefix, m.prefix + tail)
    ensures var backend := BackendPrefix(m.plugin, m.prefix);
      if backend == "" && backendPath == "/" then tail == "" else backendPath == backend + tail
  {
    hide BackendPrefix, Serves;
    var path := PublicPath(m.plugin, m.prefix, backendPath).value;
    if BackendPrefix(m.plugin, m.prefix) != "" {
      PublishDeliverInverse(m, backendPath, path);
    } else {
      PublishDeliverRoot(m, backendPath, path);
    }
    ServesTail(m.prefix, path);
    tail := StripPrefix(m.prefix, path);
    if BackendPrefix(m.plugin, m.prefix) == "" {
      assert backendPath == "/" ==> m.prefix + tail == m.prefix + "";
      assert backendPath != "/" ==> m.prefix + tail == m.prefix + backendPath;
    }
  }

  lemma SuffixOf(a: string, mid: string, tail: string, x: string)
    ensures x + tail == a + (mid + tail) <==> x == a + mid
  {
    Assoc(a, mid, tail);
    if x + tail == (a + mid) + tail {
      assert |x| == |a + mid|;
      assert x == (x + tail)[..|x|] == ((a + mid) + tail)[..|x|];
    }
  }

  /**
   Among all mounts, a path that mount `i` publishes is handed back to the same plugin as the same backend
   path exactly when the mount `w` that wins it belongs to that plugin and drops as much of its prefix,
   except for the root of a mount without backend prefix.  The winner may be nested below mount `i`.
   */
  lemma PublishedDispatchesBack(mounts: seq<Mount>, i: nat, w: nat, backendPath: string)
    requires i < |mounts| && w < |mounts|
    requires PublicPath(mounts[i].plugin, mounts[i].prefix, backendPath).Some?
    requires Wins(mounts, PublicPath(mounts[i].plugin, mounts[i].prefix, backendPath).value, w)
    ensures mounts[i].prefix <= mounts[w].prefix
    ensures var m, n := mounts[i], mounts[w];
      Deliver(mounts, PublicPath(m.plugin, m.prefix, backendPath).value) == Some((m.plugin, backendPath)) <==>
        && n.plugin == m.plugin
        && Dropped(n) == Dropped(m)
        && (BackendPrefix(m.plugin, m.prefix) != "" || backendPath != "/")
  {
    hide PublicPath, BackendPrefix, Deliver, Serves, StripPrefix;
    var m, n := mounts[i], mounts[w];
    var path := PublicPath(m.plugin, m.prefix, backendPath).value;
    var tail := PublishedTail(m, backendPath);
    WinnerDelivers(mounts, path, w);
    ServesTail(n.prefix, path);
    ServesMeans(m.prefix, path);
    ServesMeans(n.prefix, path);
    assert mounts[i] in mounts;
    assert |m.prefix| <= |n.prefix|;
    assert n.prefix == path[..|n.prefix|] && m.prefix == path[..|m.prefix|];
    var mid, rest := n.prefix[|m.prefix|..], StripPrefix(n.prefix, path);
    assert n.prefix == m.prefix + mid;
    SuffixOf(m.prefix, mid, rest, n.prefix);
    assert tail == mid + rest by {
      assert path[|m.prefix|..] == tail;
      assert (m.prefix + (mid + rest))[|m.prefix|..] == mid + rest;
    }
    if n.plugin == m.plugin {
      SuffixOf(BackendPrefix(m.plugin, m.prefix), mid, rest, BackendPrefix(n.plugin, n.prefix));
      NestedPrefixes(m.plugin, m.prefix, n.prefix);
    }
  }

  /** Mounts of one plugin nested below each other, as the plugins declare them, lead back as one mount would. */
  lemma NestedMountsComeBack(mounts: seq<Mount>, i: nat, w: nat, backendPath: string)
    requires i < |mounts| && w < |mounts|
    requires PublicPath(mounts[i].plugin, mounts[i].prefix, backendPath).Some?
    requires Wins(mounts, PublicPath(mounts[i].plugin, mounts[i].prefix, backendPath).value, w)
    requires mounts[w].plugin == mounts[i].plugin != "mimir"
    requires mounts[i].plugin == "bifrost" ==> Serves(BIFROST, mounts[i].prefix)
    ensures var m := mounts[i];
      (Deliver(mounts, PublicPath(m.plugin, m.prefix, backendPath).value) == Some((m.plugin, backendPath)))
      <==> (BackendPrefix(m.plugin, m.prefix) != "" || backendPath != "/")
  {
    hide PublicPath, Deliver, Serves, StripPrefix;
    var m, n := mounts[i], mounts[w];
    PublishedDispatchesBack(mounts, i, w, backendPath);
    if m.plugin == "bifrost" {
      var path := PublicPath(m.plugin, m.prefix, backendPath).value;
      var tail := PublishedTail(m, backendPath);
      ServesMeans(BIFROST, m.prefix);
      ServesMeans(m.prefix, path);
      ServesMeans(n.prefix, path);
      assert n.prefix == path[..|n.prefix|] && m.prefix == path[..|m.prefix|];
      assert |n.prefix| > |BIFROST| ==> n.prefix[|BIFROST|] == path[|BIFROST|] == '/';
    }
  }

  /** How much shorter the backend prefix of a mount is than its public prefix. */
  function Dropped(m: Mount): int {
    |m.prefix| - |BackendPrefix(m.plugin, m.prefix)|
  }

  /** What replaces the dropped start of a mapped prefix. */
  function Mapped(plugin: string, drop: int): string {
    if plugin == "mimir" && drop == |MIMIR_MCP| - |"/mcp"| then "/mcp"
    else if plugin == "mimir" && drop == |MIMIR| - |"/mimir"| then "/mimir"
    else ""
  }

  /** A backend prefix is a fixed text, which the dropped length tells, and the rest of the public prefix. */
  lemma BackendIsTail(plugin: string, prefix: string)
    ensures var drop := Dropped(Mount(prefix, plugin)); var fixed := Mapped(plugin, drop);
      && 0 <= drop + |fixed| <= |prefix|
      && BackendPrefix(plugin, prefix) == fixed + prefix[drop + |fixed|..]
  {
    if plugin == "mimir" && MIMIR_MCP <= prefix {
      ReplaceLeading(prefix, MIMIR_MCP, "/mcp");
    } else if plugin == "mimir" && MIMIR <= prefix {
      ReplaceLeading(prefix, MIMIR, "/mimir");
    }
  }

  /** Of two nested mounts of one plugin, both backend prefixes are nested alike exactly when they drop as much. */
  lemma NestedPrefixes(plugin: string, outer: string, inner: string)
    requires outer <= inner
    ensures BackendPrefix(plugin, inner) == BackendPrefix(plugin, outer) + inner[|outer|..]
      <==> Dropped(Mount(inner, plugin)) == Dropped(Mount(outer, plugin))
  {
    hide BackendPrefix;
    var cut := Dropped(Mount(outer, plugin));
    BackendIsTail(plugin, outer);
    BackendIsTail(plugin, inner);
    assert inner == outer + inner[|outer|..];
  }

  /** A mount wins the paths that it publishes exactly when no longer prefix serves them and no equal one came first. */
  lemma PublisherWins(mounts: seq<Mount>, i: nat, backendPath: string)
    requires i < |mounts|
    requires PublicPath(mounts[i].plugin, mounts[i].prefix, backendPath).Some?
    ensures var path := PublicPath(mounts[i].plugin, mounts[i].prefix, backendPath).value;
      Wins(mounts, path, i) <==>
        && (forall j | 0 <= j < |mounts| && Serves(mounts[j].prefix, path) :: |mounts[j].prefix| <= |mounts[i].prefix|)
        && (forall j | 0 <= j < i :: mounts[j].prefix != mounts[i].prefix)
  {
    hide PublicPath, BackendPrefix, Serves;
    var m := mounts[i];
    var path := PublicPath(m.plugin, m.prefix, backendPath).value;
    if BackendPrefix(m.plugin, m.prefix) != "" {
      PublishDeliverInverse(m, backendPath, path);
    } else {
      PublishDeliverRoot(m, backendPath, path);
    }
    forall j | 0 <= j < |mounts| && Serves(mounts[j].prefix, path) && |mounts[j].prefix| == |m.prefix|
      ensures mounts[j].prefix == m.prefix
    {
      ServesMeans(mounts[j].prefix, path);
      ServesMeans(m.prefix, path);
    }
  }

  /**
   The two mounts of the wiki: what the outer one publishes below `/mcp` is handed to the inner one, as another
   path.
   */
  lemma InnerMountShadows()
    ensures var mounts := [Mount(MIMIR, "mimir"), Mount(MIMIR_MCP, "mimir")];
      && PublicPath("mimir", MIMIR, "/mimir/mcp") == Some(MIMIR_MCP)
      && Deliver(mounts, MIMIR_MCP) == Some(("mimir", "/mcp"))
  {
    hide SortByLength;
    var mounts := [Mount(MIMIR, "mimir"), Mount(MIMIR_MCP, "mimir")];
    ReplaceLeading(MIMIR, MIMIR, "/mimir");
    assert MIMIR[|MIMIR|..] == "" && "/mimir" + "" == "/mimir";
    assert MIMIR_MCP == MIMIR + "/mcp";
    assert !(MIMIR_MCP <= MIMIR);
    assert "/mimir/mcp"[|"/mimir"|..] == "/mcp";
    assert Wins(mounts, MIMIR_MCP, 1);
    WinnerDelivers(mounts, MIMIR_MCP, 1);
    ReplaceLeading(MIMIR_MCP, MIMIR_MCP, "/mcp");
    assert MIMIR_MCP[|MIMIR_MCP|..] == "" && "/mcp" + "" == "/mcp";
  }
}
