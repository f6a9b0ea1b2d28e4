/** The tenant hierarchy and its session quotas (src/identity/service.py:50-144, 174-209, 277-302). */
module Tenancy {
  import opened Text

  datatype Tier = Developer | Team | Enterprise

  datatype Tenant = Tenant(
    id: string, path: string, name: string, parentId: Option<string>, tier: Tier,
    maxSessions: int, maxStorageGb: int)

  datatype QuotaCheck = QuotaCheck(allowed: bool, tenantId: string, maxSessions: int, currentSessions: int)

  /** What a creation comes to; a duplicate id is the repository's primary key error. */
  datatype Creation = Created(tenant: Tenant) | ParentNotFound | PathExists | DuplicateId

  // ---- The repository ----

  function ById(rows: seq<Tenant>, id: string): (r: Option<Tenant>)
    ensures r.Some? ==> r.value in rows && r.value.id == id
    ensures r.None? ==> forall t | t in rows :: t.id != id
  {
    if rows == [] then None
    else if rows[0].id == id then Some(rows[0])
    else ById(rows[1..], id)
  }

  function ByPath(rows: seq<Tenant>, path: string): (r: Option<Tenant>)
    ensures r.Some? ==> r.value in rows && r.value.path == path
    ensures r.None? ==> forall t | t in rows :: t.path != path
  {
    if rows == [] then None
    else if rows[0].path == path then Some(rows[0])
    else ByPath(rows[1..], path)
  }

  /** The rows whose path is one of the `k` shortest prefixes of `path`, shortest first. */
  function PrefixRows(rows: seq<Tenant>, path: string, k: nat): seq<Tenant>
    requires k <= |path| + 1
  {
    if k == 0 then []
    else
      PrefixRows(rows, path, k - 1)
      + match ByPath(rows, path[..k - 1]) case Some(t) => [t] case None => []
  }

  /** The repository's query: every row whose path is a string prefix of `path`, by length. */
  function GetAncestors(rows: seq<Tenant>, path: string): seq<Tenant> {
    PrefixRows(rows, path, |path| + 1)
  }

  /** The tenant, or a tenant below it, has this path. */
  predicate Under(ancestor: string, path: string) {
    ancestor == path || ancestor + "." <= path
  }

  function ChildPath(rows: seq<Tenant>, parentId: Option<string>, id: string): Option<string> {
    match parentId
    case None => Some(id)
    case Some(p) =>
      match ById(rows, p)
      case None => None
      case Some(parent) => Some(parent.path + "." + id)
  }

  /** Ids are unique and dot-free, and every path spells out its parent's. */
  predicate Tree(rows: seq<Tenant>) {
    && (forall i, j | 0 <= i < j < |rows| :: rows[i].id != rows[j].id)
    && (forall t | t in rows :: '.' !in t.id && ChildPath(rows, t.parentId, t.id) == Some(t.path))
  }

  // ---- Paths are chains ----

  /** The tenant's parent chain, from the tenant up to its root. */
  function Chain(rows: seq<Tenant>, t: Tenant): seq<Tenant>
    requires Tree(rows) && t in rows
    decreases |t.path|
  {
    match t.parentId
    case None => [t]
    case Some(p) => [t] + Chain(rows, ById(rows, p).value)
  }

  lemma IdDeterminesTenant(rows: seq<Tenant>, t: Tenant, u: Tenant)
    requires Tree(rows) && t in rows && u in rows && t.id == u.id
    ensures t == u
  {
    hide ChildPath;
  }

  lemma PathEndsInId(rows: seq<Tenant>, t: Tenant)
    requires Tree(rows) && t in rows
    ensures |t.id| <= |t.path| && t.path[|t.path| - |t.id|..] == t.id
    ensures |t.id| < |t.path| ==> t.path[|t.path| - |t.id| - 1] == '.'
    ensures t.parentId.None? <==> |t.id| == |t.path|
  {
  }

  /** Two tenants with one path are one tenant. */
  lemma PathDeterminesTenant(rows: seq<Tenant>, t: Tenant, u: Tenant)
    requires Tree(rows) && t in rows && u in rows && t.path == u.path
    ensures t == u
  {
    hide ChildPath;
    PathEndsInId(rows, t);
    PathEndsInId(rows, u);
    assert |t.id| == |u.id|;
    IdDeterminesTenant(rows, t, u);
  }

  /** Every dotted prefix of a tenant's path is the path of a tenant on its chain. */
  lemma {:induction false} PrefixIsOnChain(rows: seq<Tenant>, p: string, u: Tenant) returns (t: Tenant)
    requires Tree(rows) && u in rows && Under(p, u.path)
    ensures t in rows && t.path == p && t in Chain(rows, u)
    decreases |u.path|
  {
    if p == u.path {
      t := u;
    } else {
      assert u.path[|p|] == '.';
      var v := ById(rows, u.parentId.value).value;
      ParentIsUnder(p, v.path, u.id);
      t := PrefixIsOnChain(rows, p, v);
    }
  }

  lemma ParentIsUnder(p: string, parent: string, id: string)
    requires '.' !in id && p + "." <= parent + "." + id
    ensures Under(p, parent)
  {
    var path := parent + "." + id;
    assert path[|p|] == (p + ".")[|p|] == '.';
    assert |p| <= |parent|;
    assert p == path[..|p|];
    if |p| < |parent| {
      assert path[..|p| + 1] == p + "." == parent[..|p| + 1];
    }
  }

  lemma {:induction false} ChainIsUnder(rows: seq<Tenant>, t: Tenant, u: Tenant)
    requires Tree(rows) && u in rows && t in Chain(rows, u)
    ensures t in rows && Under(t.path, u.path)
    decreases |u.path|
  {
    if t != u {
      var v := ById(rows, u.parentId.value).value;
      ChainIsUnder(rows, t, v);
      UnderChild(t.path, v.path, u.id);
    }
  }

  lemma UnderChild(p: string, parent: string, id: string)
    requires Under(p, parent)
    ensures Under(p, parent + "." + id)
  {
    if p != parent {
      assert p + "." <= parent + ("." + id);
      Assoc(parent, ".", id);
    }
  }

  /** The tenants whose path is a dotted prefix of a path are exactly its parent chain. */
  lemma AncestorsAreTheChain(rows: seq<Tenant>, t: Tenant, u: Tenant)
    requires Tree(rows) && t in rows && u in rows
    ensures Under(t.path, u.path) <==> t in Chain(rows, u)
  {
    hide Tree, Under, Chain;
    if Under(t.path, u.path) {
      var a := PrefixIsOnChain(rows, t.path, u);
      PathDeterminesTenant(rows, t, a);
    }
    if t in Chain(rows, u) {
      ChainIsUnder(rows, t, u);
    }
  }

  // ---- The repository's ancestors ----

  lemma {:induction false} PrefixRowsMember(rows: seq<Tenant>, path: string, k: nat, t: Tenant)
    requires Tree(rows) && k <= |path| + 1
    ensures t in PrefixRows(rows, path, k) <==> t in rows && t.path <= path && |t.path| < k
  {
    hide Tree, ByPath;
    if k > 0 {
      PrefixRowsMember(rows, path, k - 1, t);
      var here := ByPath(rows, path[..k - 1]);
      if t in rows && t.path == path[..k - 1] {
        PathDeterminesTenant(rows, t, here.value);
      }
    }
  }

  lemma AncestorRows(rows: seq<Tenant>, path: string, t: Tenant)
    requires Tree(rows)
    ensures t in GetAncestors(rows, path) <==> t in rows && t.path <= path
  {
    PrefixRowsMember(rows, path, |path| + 1, t);
  }

  /** Ancestors come shortest path first, so that a refusal is the topmost tenant's. */
  lemma {:induction false} PrefixRowsOrdered(rows: seq<Tenant>, path: string, k: nat, i: nat, j: nat)
    requires k <= |path| + 1 && i < j < |PrefixRows(rows, path, k)|
    ensures var a := PrefixRows(rows, path, k); |a[i].path| < |a[j].path| < k
  {
    hide ByPath;
    var few, here := PrefixRows(rows, path, k - 1), ByPath(rows, path[..k - 1]);
    if j < |few| {
      PrefixRowsOrdered(rows, path, k - 1, i, j);
    } else {
      PrefixRowsShort(rows, path, k - 1, i);
    }
  }

  lemma {:induction false} PrefixRowsShort(rows: seq<Tenant>, path: string, k: nat, i: nat)
    requires k <= |path| + 1 && i < |PrefixRows(rows, path, k)|
    ensures |PrefixRows(rows, path, k)[i].path| < k
  {
    hide ByPath;
    if i < |PrefixRows(rows, path, k - 1)| { PrefixRowsShort(rows, path, k - 1, i); }
  }

  lemma AncestorsTopFirst(rows: seq<Tenant>, path: string, i: nat, j: nat)
    requires i < j < |GetAncestors(rows, path)|
    ensures |GetAncestors(rows, path)[i].path| < |GetAncestors(rows, path)[j].path|
  {
    PrefixRowsOrdered(rows, path, |path| + 1, i, j);
  }

  /** The last ancestor of a tenant's path is the tenant. */
  lemma LeafIsLast(rows: seq<Tenant>, u: Tenant)
    requires Tree(rows) && u in rows
    ensures var a := GetAncestors(rows, u.path); a != [] && a[|a| - 1] == u
  {
    hide Tree, ByPath;
    assert u.path[..|u.path|] == u.path;
    PathDeterminesTenant(rows, u, ByPath(rows, u.path).value);
  }

  /** No row's path continues into this one without a dot. */
  predicate NoStray(rows: seq<Tenant>, path: string) {
    forall t | t in rows && t.path <= path && t.path != path :: path[|t.path|] == '.'
  }

  lemma DottedPrefix(p: string, path: string)
    requires p <= path
    ensures Under(p, path) <==> p == path || path[|p|] == '.'
  {
    if p != path && path[|p|] == '.' {
      assert path[..|p| + 1] == p + ".";
    }
    if p + "." <= path {
      assert path[|p|] == (p + ".")[|p|];
    }
  }

  lemma UnderIsPrefix(p: string, path: string)
    requires Under(p, path)
    ensures p <= path
  {
    if p != path { assert p <= p + "."; }
  }

  /**
   The query returns every tenant of the chain, and returns the chain exactly when no other tenant's path
   is a plain string prefix of the path.
   */
  lemma QueryReturnsChain(rows: seq<Tenant>, u: Tenant)
    requires Tree(rows) && u in rows
    ensures forall t | t in Chain(rows, u) :: t in GetAncestors(rows, u.path)
    ensures (forall t | t in GetAncestors(rows, u.path) :: t in Chain(rows, u)) <==> NoStray(rows, u.path)
  {
    hide Tree, Chain, GetAncestors, Under;
    forall t | t in Chain(rows, u) ensures t in GetAncestors(rows, u.path) {
      ChainIsUnder(rows, t, u);
      UnderIsPrefix(t.path, u.path);
      AncestorRows(rows, u.path, t);
    }
    forall t | t in rows && t.path <= u.path
      ensures t in GetAncestors(rows, u.path)
      ensures t in Chain(rows, u) <==> t.path == u.path || u.path[|t.path|] == '.'
    {
      AncestorRows(rows, u.path, t);
      AncestorsAreTheChain(rows, t, u);
      DottedPrefix(t.path, u.path);
    }
    forall t | t in GetAncestors(rows, u.path) ensures t in rows && t.path <= u.path {
      AncestorRows(rows, u.path, t);
    }
  }

  // ---- Quotas ----

  /** The running sessions, one tenant path each, that run at or below a path. */
  function CountUnder(sessions: seq<string>, path: string): nat {
    if sessions == [] then 0
    else
      CountUnder(sessions[..|sessions| - 1], path) + if Under(path, sessions[|sessions| - 1]) then 1 else 0
  }

  /** No ancestor that the repository returns is at its limit. */
  predicate WithinQuota(rows: seq<Tenant>, path: string, running: string -> int) {
    forall a | a in GetAncestors(rows, path) :: running(a.path) < a.maxSessions
  }

  /** Allowed exactly within quota; a refusal names the shortest ancestor at its limit. */
  method CheckQuota(rows: seq<Tenant>, path: string, running: string -> int) returns (r: QuotaCheck)
    ensures r.allowed <==> WithinQuota(rows, path, running)
    ensures !r.allowed ==> exists i | 0 <= i < |GetAncestors(rows, path)| ::
      var a := GetAncestors(rows, path)[i];
      && r == QuotaCheck(false, a.id, a.maxSessions, running(a.path)) && running(a.path) >= a.maxSessions
      && forall j | 0 <= j < i :: running(GetAncestors(rows, path)[j].path) < GetAncestors(rows, path)[j].maxSessions
    ensures r.allowed && GetAncestors(rows, path) == [] ==> r == QuotaCheck(true, "", 0, 0)
    ensures r.allowed && GetAncestors(rows, path) != [] ==>
      var leaf := GetAncestors(rows, path)[|GetAncestors(rows, path)| - 1];
      r == QuotaCheck(true, leaf.id, leaf.maxSessions, running(leaf.path))
  {
    hide GetAncestors;
    var ancestors := GetAncestors(rows, path);
    for i := 0 to |ancestors|
      invariant forall j | 0 <= j < i :: running(ancestors[j].path) < ancestors[j].maxSessions
    {
      var count := running(ancestors[i].path);
      if count >= ancestors[i].maxSessions {
        return QuotaCheck(false, ancestors[i].id, ancestors[i].maxSessions, count);
      }
    }
    if ancestors == [] {
      return QuotaCheck(true, "", 0, 0);
    }
    var leaf := ancestors[|ancestors| - 1];
    return QuotaCheck(true, leaf.id, leaf.maxSessions, running(leaf.path));
  }

  /** No tenant has more sessions at or below it than its limit. */
  predicate QuotaSafe(rows: seq<Tenant>, sessions: seq<string>) {
    forall t | t in rows :: CountUnder(sessions, t.path) <= if t.maxSessions < 0 then 0 else t.maxSessions
  }

  /** Every session runs in a tenant. */
  predicate Placed(rows: seq<Tenant>, sessions: seq<string>) {
    forall s | s in sessions :: exists t :: t in rows && t.path == s
  }

  lemma CountSnoc(sessions: seq<string>, s: string, path: string)
    ensures CountUnder(sessions + [s], path) == CountUnder(sessions, path) + if Under(path, s) then 1 else 0
  {
    assert (sessions + [s])[..|sessions|] == sessions;
  }

  /** A start that the check admits leaves every tenant, at any level, within its limit. */
  lemma AdmittedStartIsSafe(rows: seq<Tenant>, sessions: seq<string>, u: Tenant)
    requires Tree(rows) && u in rows && QuotaSafe(rows, sessions)
    requires WithinQuota(rows, u.path, p => CountUnder(sessions, p))
    ensures QuotaSafe(rows, sessions + [u.path])
  {
    hide Tree, Under, GetAncestors, CountUnder;
    forall t | t in rows
      ensures CountUnder(sessions + [u.path], t.path) <= if t.maxSessions < 0 then 0 else t.maxSessions
    {
      CountSnoc(sessions, u.path, t.path);
      if Under(t.path, u.path) {
        UnderIsPrefix(t.path, u.path);
        AncestorRows(rows, u.path, t);
      }
    }
  }

  /**
   The check is exact, refusing a start only when it would take a tenant of the chain past its limit, if
   and only if no full stray row decides it: some tenant of the chain is full, or no tenant is full whose
   path is a plain string prefix and no dotted one.
   */
  lemma CheckIsExact(rows: seq<Tenant>, u: Tenant, running: string -> int)
    requires Tree(rows) && u in rows
    ensures
      (WithinQuota(rows, u.path, running) <==>
       forall t | t in rows && Under(t.path, u.path) :: running(t.path) < t.maxSessions)
      <==>
      || (exists t :: t in rows && Under(t.path, u.path) && running(t.path) >= t.maxSessions)
      || (forall t | t in rows && t.path <= u.path && !Under(t.path, u.path) :: running(t.path) < t.maxSessions)
  {
    hide Tree, GetAncestors, Under;
    forall t ensures t in GetAncestors(rows, u.path) <==> t in rows && t.path <= u.path {
      AncestorRows(rows, u.path, t);
    }
    forall t | t in rows && Under(t.path, u.path) ensures t.path <= u.path {
      UnderIsPrefix(t.path, u.path);
    }
  }

  /** With a stray row a full tenant can refuse a start in a tenant that is not below it. */
  lemma StrayRefuses()
    ensures var full := Tenant("org1", "org1", "", None, Developer, 0, 50);
      var free := Tenant("org10", "org10", "", None, Developer, 5, 50);
      var rows := [full, free];
      && Tree(rows) && !NoStray(rows, free.path)
      && (forall t | t in Chain(rows, free) :: 0 < t.maxSessions)
      && !WithinQuota(rows, free.path, p => 0)
  {
    var full := Tenant("org1", "org1", "", None, Developer, 0, 50);
    var free := Tenant("org10", "org10", "", None, Developer, 5, 50);
    var rows := [full, free];
    assert full.path <= free.path && free.path[4] == '0';
    assert full in rows;
    AncestorRows(rows, free.path, full);
    assert Chain(rows, free) == [free];
  }

  // ---- Growth of the tree ----

  lemma {:induction false} ByIdGrows(rows: seq<Tenant>, t: Tenant, id: string)
    ensures ById(rows + [t], id)
      == if ById(rows, id).Some? then ById(rows, id) else if t.id == id then Some(t) else None
  {
    if rows != [] {
      assert (rows + [t])[1..] == rows[1..] + [t];
      ByIdGrows(rows[1..], t, id);
    }
  }

  lemma TreeGrows(rows: seq<Tenant>, t: Tenant)
    requires Tree(rows) && '.' !in t.id && ById(rows, t.id).None? && ChildPath(rows, t.parentId, t.id) == Some(t.path)
    ensures Tree(rows + [t])
  {
    var more := rows + [t];
    forall u | u in more ensures '.' !in u.id && ChildPath(more, u.parentId, u.id) == Some(u.path) {
      if u.parentId.Some? {
        ByIdGrows(rows, t, u.parentId.value);
      }
    }
  }

  /** No session runs at or below a path that no tenant has. */
  lemma {:induction false} NewPathIsEmpty(rows: seq<Tenant>, sessions: seq<string>, path: string)
    requires Tree(rows) && Placed(rows, sessions) && ByPath(rows, path).None?
    ensures CountUnder(sessions, path) == 0
  {
    hide Tree, Under, ByPath;
    if sessions != [] {
      var init, s := sessions[..|sessions| - 1], sessions[|sessions| - 1];
      assert s in sessions;
      var u :| u in rows && u.path == s;
      if Under(path, s) {
        var t := PrefixIsOnChain(rows, path, u);
        assert false;
      }
      forall x | x in init ensures exists t :: t in rows && t.path == x {
        assert x in sessions;
      }
      NewPathIsEmpty(rows, init, path);
    }
  }

  lemma SafeGrows(rows: seq<Tenant>, sessions: seq<string>, t: Tenant)
    requires Tree(rows) && Placed(rows, sessions) && QuotaSafe(rows, sessions) && ByPath(rows, t.path).None?
    ensures QuotaSafe(rows + [t], sessions) && Placed(rows + [t], sessions)
  {
    hide Tree, CountUnder, ByPath;
    NewPathIsEmpty(rows, sessions, t.path);
    forall s | s in sessions ensures exists u :: u in rows + [t] && u.path == s {
      var u :| u in rows && u.path == s;
      assert u in rows + [t];
    }
  }

  // ---- Settings ----

  function WithSettings(t: Tenant, maxSessions: Option<int>, maxStorageGb: Option<int>, tier: Option<Tier>): Tenant {
    t.(maxSessions := if maxSessions.Some? then maxSessions.value else t.maxSessions,
       maxStorageGb := if maxStorageGb.Some? then maxStorageGb.value else t.maxStorageGb,
       tier := if tier.Some? then tier.value else t.tier)
  }

  /** The rows after the row with the tenant's id was replaced. */
  function Updated(rows: seq<Tenant>, t: Tenant): (r: seq<Tenant>)
    ensures |r| == |rows| && forall i | 0 <= i < |rows| :: r[i] == if rows[i].id == t.id then t else rows[i]
  {
    if rows == [] then [] else [if rows[0].id == t.id then t else rows[0]] + Updated(rows[1..], t)
  }

  lemma {:induction false} ByIdUpdated(rows: seq<Tenant>, t: Tenant, id: string)
    ensures ById(Updated(rows, t), id)
      == if ById(rows, id).None? then None else if id == t.id then Some(t) else ById(rows, id)
  {
    if rows != [] {
      assert Updated(rows, t)[1..] == Updated(rows[1..], t);
      ByIdUpdated(rows[1..], t, id);
    }
  }

  lemma UpdateKeepsTree(rows: seq<Tenant>, previous: Tenant, t: Tenant)
    requires Tree(rows) && previous in rows && t.id == previous.id && t.path == previous.path
    requires t.parentId == previous.parentId
    ensures Tree(Updated(rows, t))
    ensures forall u | u in rows :: exists v :: v in Updated(rows, t) && v.path == u.path
  {
    hide Updated;
    var more := Updated(rows, t);
    forall u | u in more ensures '.' !in u.id && ChildPath(more, u.parentId, u.id) == Some(u.path) {
      var i :| 0 <= i < |more| && more[i] == u;
      UpdatedRow(rows, previous, t, i);
      ChildPathUpdated(rows, previous, t, rows[i].parentId, rows[i].id);
    }
    forall u | u in rows ensures exists v :: v in more && v.path == u.path {
      var i :| 0 <= i < |rows| && rows[i] == u;
      UpdatedRow(rows, previous, t, i);
      assert more[i] in more;
    }
  }

  lemma UpdatedRow(rows: seq<Tenant>, previous: Tenant, t: Tenant, i: nat)
    requires Tree(rows) && previous in rows && t.id == previous.id && t.path == previous.path
    requires t.parentId == previous.parentId
    requires i < |rows|
    ensures var r := Updated(rows, t)[i];
      r.id == rows[i].id && r.path == rows[i].path && r.parentId == rows[i].parentId
  {
    hide ChildPath;
    if rows[i].id == t.id {
      IdDeterminesTenant(rows, rows[i], previous);
    }
  }

  lemma ChildPathUpdated(rows: seq<Tenant>, previous: Tenant, t: Tenant, parentId: Option<string>, id: string)
    requires Tree(rows) && previous in rows && t.id == previous.id && t.path == previous.path
    ensures ChildPath(Updated(rows, t), parentId, id) == ChildPath(rows, parentId, id)
  {
    hide Tree, Updated;
    if parentId.Some? {
      ByIdUpdated(rows, t, parentId.value);
      if parentId.value == t.id && ById(rows, t.id).Some? {
        IdDeterminesTenant(rows, ById(rows, t.id).value, previous);
      }
    }
  }

  // ---- The service ----

  class TenantService {
    var rows: seq<Tenant>
    var sessions: seq<string>

    ghost predicate Valid()
      reads this
    {
      Tree(rows) && Placed(rows, sessions)
    }

    constructor ()
      ensures Valid() && QuotaSafe(rows, sessions) && rows == [] && sessions == []
    {
      rows, sessions := [], [];
    }

    /**
     `generatedId` is the generated id.  A dot-free id keeps the paths a tree, and a new tenant starts within
     its limit.
     */
    method CreateTenant(
      name: string, parentId: Option<string>, tenantId: Option<string>, generatedId: string,
      tier: Tier, maxSessions: int, maxStorageGb: int) returns (r: Creation)
      requires Valid()
      modifies `rows
      ensures var id := if tenantId.Some? then tenantId.value else generatedId;
        var path := ChildPath(old(rows), parentId, id);
        && (r == ParentNotFound <==> path.None?)
        && (r == PathExists <==> path.Some? && ByPath(old(rows), path.value).Some?)
        && (r == DuplicateId <==> path.Some? && ByPath(old(rows), path.value).None? && ById(old(rows), id).Some?)
        && (r.Created? ==> r.tenant == Tenant(id, path.value, name, parentId, tier, maxSessions, maxStorageGb))
        && (r.Created? && parentId.None? ==> r.tenant.path == id)
        && (r.Created? && parentId.Some? ==> exists parent | parent in old(rows) ::
             parent.id == parentId.value && r.tenant.path == parent.path + "." + id)
        && ('.' !in id ==> Valid() && (old(QuotaSafe(rows, sessions)) ==> QuotaSafe(rows, sessions)))
      ensures rows == if r.Created? then old(rows) + [r.tenant] else old(rows)
    {
      hide Tree, Placed, QuotaSafe;
      var id := if tenantId.Some? then tenantId.value else generatedId;
      var path: string;
      if parentId.Some? {
        var parent := ById(rows, parentId.value);
        if parent.None? {
          return ParentNotFound;
        }
        path := parent.value.path + "." + id;
      } else {
        path := id;
      }
      if ByPath(rows, path).Some? {
        return PathExists;
      }
      if ById(rows, id).Some? {
        return DuplicateId;
      }
      var tenant := Tenant(id, path, name, parentId, tier, maxSessions, maxStorageGb);
      if '.' !in id {
        TreeGrows(rows, tenant);
        PlacedGrows(rows, sessions, tenant);
        if QuotaSafe(rows, sessions) {
          SafeGrows(rows, sessions, tenant);
        }
      }
      rows := rows + [tenant];
      return Created(tenant);
    }

    /** Checks the quota of a tenant and starts a session in it in one step. */
    method StartSession(tenant: Tenant) returns (r: QuotaCheck)
      requires Valid() && tenant in rows
      modifies `sessions
      ensures Valid()
      ensures r.allowed <==> WithinQuota(rows, tenant.path, p => CountUnder(old(sessions), p))
      ensures sessions == if r.allowed then old(sessions) + [tenant.path] else old(sessions)
      ensures old(QuotaSafe(rows, sessions)) ==> QuotaSafe(rows, sessions)
    {
      hide Tree, CountUnder, GetAncestors, WithinQuota;
      var now := sessions;
      r := CheckQuota(rows, tenant.path, p => CountUnder(now, p));
      if r.allowed {
        if QuotaSafe(rows, sessions) {
          AdmittedStartIsSafe(rows, sessions, tenant);
        }
        sessions := sessions + [tenant.path];
      }
    }

    method EndSession(i: nat)
      requires Valid() && i < |sessions|
      modifies `sessions
      ensures Valid() && sessions == old(sessions)[..i] + old(sessions)[i + 1..]
      ensures old(QuotaSafe(rows, sessions)) ==> QuotaSafe(rows, sessions)
    {
      hide Tree, CountUnder;
      var now := sessions;
      forall path: string ensures CountUnder(now[..i] + now[i + 1..], path) <= CountUnder(now, path) {
        CountWithout(now, i, path);
      }
      sessions := sessions[..i] + sessions[i + 1..];
      forall s | s in sessions ensures s in now { }
    }

    /**
     `None` is the error of an unknown tenant.  The quota stays safe exactly when the new limit still covers
     the sessions.
     */
    method UpdateTenantSettings(id: string, maxSessions: Option<int>, maxStorageGb: Option<int>, tier: Option<Tier>)
      returns (r: Option<Tenant>)
      requires Valid()
      modifies `rows
      ensures Valid()
      ensures r.None? <==> forall t | t in old(rows) :: t.id != id
      ensures r.Some? ==> exists t | t in old(rows) ::
        && t.id == id && r.value.id == t.id && r.value.path == t.path && r.value.name == t.name
        && r.value.parentId == t.parentId
        && r.value.maxSessions == (match maxSessions case Some(v) => v case None => t.maxSessions)
        && r.value.maxStorageGb == (match maxStorageGb case Some(v) => v case None => t.maxStorageGb)
        && r.value.tier == (match tier case Some(v) => v case None => t.tier)
      ensures rows == if r.Some? then Updated(old(rows), r.value) else old(rows)
      ensures old(QuotaSafe(rows, sessions)) ==>
        (QuotaSafe(rows, sessions) <==>
          r.None? || CountUnder(sessions, r.value.path) <= if r.value.maxSessions < 0 then 0 else r.value.maxSessions)
    {
      hide Tree, CountUnder, Updated;
      var tenant := ById(rows, id);
      if tenant.None? {
        return None;
      }
      var updated := WithSettings(tenant.value, maxSessions, maxStorageGb, tier);
      UpdateKeepsTree(rows, tenant.value, updated);
      UpdateKeepsPlaced(rows, sessions, tenant.value, updated);
      UpdateSafety(rows, sessions, tenant.value, updated);
      rows := Updated(rows, updated);
      return Some(updated);
    }

    method EnsureDefaultTenant() returns (r: Creation)
      requires Valid()
      modifies `rows
      ensures Valid() && r.Created? && r.tenant.id == "default" && r.tenant in rows
      ensures old(ById(rows, "default")).None? ==>
        r.tenant == Tenant("default", "default", "Default", None, Developer, 100, 500)
      ensures old(ById(rows, "default")).Some? ==> rows == old(rows)
      ensures old(ById(rows, "default")).None? ==> rows == old(rows) + [r.tenant]
      ensures old(QuotaSafe(rows, sessions)) ==> QuotaSafe(rows, sessions)
    {
      hide Tree, Placed, QuotaSafe;
      var existing := ById(rows, "default");
      if existing.Some? {
        return Created(existing.value);
      }
      RootPathIsFree(rows, "default");
      r := CreateTenant("Default", None, Some("default"), "", Developer, 100, 500);
    }

    /** A dot-free claim always ends with its tenant in the hierarchy, created at most once. */
    method SyncTenantFromPrincipal(claim: string) returns (r: Creation)
      requires Valid()
      modifies `rows
      ensures '.' !in claim ==>
        var id := if claim == "" then "default" else claim;
        && Valid() && r.Created? && r.tenant.id == id && r.tenant in rows
        && (rows == if old(ById(rows, id)).Some? then old(rows) else old(rows) + [r.tenant])
        && (claim != "" && old(ById(rows, id)).None? ==>
            r.tenant == Tenant(claim, claim, claim, None, Developer, 5, 50))
        && (old(QuotaSafe(rows, sessions)) ==> QuotaSafe(rows, sessions))
    {
      hide Tree, Placed, QuotaSafe;
      if claim == "" {
        r := EnsureDefaultTenant();
        return;
      }
      var existing := ById(rows, claim);
      if existing.Some? {
        return Created(existing.value);
      }
      if '.' !in claim { RootPathIsFree(rows, claim); }
      r := CreateTenant(claim, None, Some(claim), "", Developer, 5, 50);
    }
  }

  lemma PlacedGrows(rows: seq<Tenant>, sessions: seq<string>, t: Tenant)
    requires Placed(rows, sessions)
    ensures Placed(rows + [t], sessions)
  {
    forall s | s in sessions ensures exists u :: u in rows + [t] && u.path == s {
      var u :| u in rows && u.path == s;
      assert u in rows + [t];
    }
  }

  /** In a tree no tenant but `id` itself has the dot-free path `id`. */
  lemma RootPathIsFree(rows: seq<Tenant>, id: string)
    requires Tree(rows) && '.' !in id && ById(rows, id).None?
    ensures ByPath(rows, id).None?
  {
    hide ChildPath;
    if ByPath(rows, id).Some? {
      var t := ByPath(rows, id).value;
      PathEndsInId(rows, t);
    }
  }

  lemma {:induction false} CountWithout(sessions: seq<string>, i: nat, path: string)
    requires i < |sessions|
    ensures CountUnder(sessions[..i] + sessions[i + 1..], path) <= CountUnder(sessions, path)
  {
    hide Under;
    var init, last := sessions[..|sessions| - 1], sessions[|sessions| - 1];
    if i < |init| {
      CountWithout(init, i, path);
      assert sessions[..i] + sessions[i + 1..] == (init[..i] + init[i + 1..]) + [last];
      CountSnoc(init[..i] + init[i + 1..], last, path);
    } else {
      assert sessions[..i] + sessions[i + 1..] == init;
    }
  }

  lemma UpdateKeepsPlaced(rows: seq<Tenant>, sessions: seq<string>, previous: Tenant, t: Tenant)
    requires Placed(rows, sessions)
    requires forall u | u in rows :: exists v :: v in Updated(rows, t) && v.path == u.path
    ensures Placed(Updated(rows, t), sessions)
  {
    hide Updated;
    forall s | s in sessions ensures exists v :: v in Updated(rows, t) && v.path == s {
      var u :| u in rows && u.path == s;
    }
  }

  lemma UpdateSafety(rows: seq<Tenant>, sessions: seq<string>, previous: Tenant, t: Tenant)
    requires previous in rows && t.id == previous.id
    ensures QuotaSafe(rows, sessions) ==>
      (QuotaSafe(Updated(rows, t), sessions) <==>
       CountUnder(sessions, t.path) <= if t.maxSessions < 0 then 0 else t.maxSessions)
  {
    hide CountUnder;
    var more := Updated(rows, t);
    var i :| 0 <= i < |rows| && rows[i] == previous;
    assert more[i] == t && t in more;
    if QuotaSafe(rows, sessions) {
      forall u | u in more && u != t ensures u in rows {
        var j :| 0 <= j < |more| && more[j] == u;
      }
    }
  }
}
