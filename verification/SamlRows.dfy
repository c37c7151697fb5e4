/**
 SAML rows and their ids: which routes an application has, how ACS ids are
 allocated by probing, and that every id a provider mentions has its row.
 Ids are values of a datatype, one constructor per id prefix.
 */
module SamlRows {
  import opened Basics

  datatype Id =
    | ProviderId(app: string)
    | IssuerId(app: string)
    | AcsId(app: string, index: int)
    | ClaimMappingId(app: string, index: int)
    | ServiceProviderId(idp: string)
    | TrustedIssuerId(entity: string, tenant: string)
    | RuleId(idp: string)
    | RuleFieldId(idp: string)
    | SpAcsId(idp: string, index: int)

  // ----- Routes of an application

  datatype Route = Route(acsUrl: string, spEntityId: string, index: Option<int>, conflicts: seq<string>)

  datatype Extraction = Extraction(
    routes: seq<Route>,
    acsUrls: seq<string>,
    spEntityId: Option<string>,
    diagnostics: seq<string>,
    contradictory: bool)

  /** A usable attribute statement becomes a claim mapping; the others are skipped. */
  datatype Application = Application(
    id: string,
    isSaml: bool,
    hasSignOn: bool,
    idpIssuer: Option<string>,
    explicit: Extraction,
    oinRoutes: seq<Route>,
    oinDiagnostics: seq<string>,
    hasNameIdTemplate: bool,
    statements: seq<bool>)

  const CONFLICT := "explicit_generic_route_overrides_conflicting_oin_route"

  function KeysOf(routes: seq<Route>): set<(string, string)> {
    set r | r in routes :: (r.acsUrl, r.spEntityId)
  }

  function Flagged(routes: seq<Route>): seq<Route> {
    seq(|routes|, i requires 0 <= i < |routes| => routes[i].(conflicts := routes[i].conflicts + [CONFLICT]))
  }

  function PartialDiagnostics(x: Extraction, oinRoutes: seq<Route>): seq<string> {
    (if x.acsUrls == [] then []
     else if exists r :: r in oinRoutes && r.acsUrl !in x.acsUrls
     then ["partial_explicit_acs_conflicts_with_oin_route"] else ["missing_authoritative_sp_entity_evidence"])
    + (if x.spEntityId.None? then []
       else if exists r :: r in oinRoutes && r.spEntityId != x.spEntityId.value
       then ["partial_explicit_sp_entity_conflicts_with_oin_route"] else ["missing_authoritative_acs_evidence"])
  }

  function SamlRoutes(app: Application): (seq<Route>, seq<string>) {
    var x := app.explicit;
    if !app.isSaml then ([], [])
    else if x.contradictory then ([], x.diagnostics)
    else if x.routes != [] then
      if KeysOf(app.oinRoutes) - KeysOf(x.routes) != {} then (Flagged(x.routes), x.diagnostics + [CONFLICT])
      else (x.routes, x.diagnostics)
    else if app.oinRoutes != [] then
      if PartialDiagnostics(x, app.oinRoutes) != [] then ([], PartialDiagnostics(x, app.oinRoutes))
      else (app.oinRoutes, app.oinDiagnostics)
    else if app.oinDiagnostics != [] then ([], app.oinDiagnostics)
    else if x.acsUrls != [] && x.spEntityId.None? then ([], ["missing_authoritative_sp_entity_evidence"])
    else if x.spEntityId.Some? && x.acsUrls == [] then ([], ["missing_authoritative_acs_evidence"])
    else ([], ["missing_authoritative_acs_and_sp_entity_evidence"])
  }

  /** Explicit routes win; catalog routes are used only if nothing explicit contradicts or half-answers them. */
  lemma RouteSourcesNeverMix(app: Application)
    ensures var (routes, diagnostics) := SamlRoutes(app);
            && (routes != [] && app.explicit.routes != [] ==> KeysOf(routes) == KeysOf(app.explicit.routes))
            && (routes != [] && app.explicit.routes == [] ==>
                  routes == app.oinRoutes && app.explicit.acsUrls == [] && app.explicit.spEntityId.None?)
            && (app.isSaml && routes == [] && (app.explicit.contradictory ==> app.explicit.diagnostics != []) ==>
                  diagnostics != [])
  {
    var x := app.explicit.routes;
    forall r | r in x ensures (r.acsUrl, r.spEntityId) in KeysOf(Flagged(x)) {
      var i :| 0 <= i < |x| && x[i] == r;
      assert Flagged(x)[i] in Flagged(x);
    }
    assert KeysOf(Flagged(x)) == KeysOf(x);
  }

  /** The application's own routes stand: usable, and not contradicted by themselves. */
  predicate HasExplicitRoutes(app: Application) {
    app.isSaml && !app.explicit.contradictory && app.explicit.routes != []
  }

  /** Nothing explicit is known, so the catalog speaks alone. */
  predicate HasOnlyCatalogRoutes(app: Application) {
    && app.isSaml && !app.explicit.contradictory && app.explicit.routes == [] && app.oinRoutes != []
    && app.explicit.acsUrls == [] && app.explicit.spEntityId.None?
  }

  predicate CatalogDisagrees(app: Application) {
    exists r :: r in app.oinRoutes && forall x :: x in app.explicit.routes ==> (x.acsUrl, x.spEntityId) != (r.acsUrl, r.spEntityId)
  }

  lemma DisagreesIffKeys(app: Application)
    ensures KeysOf(app.oinRoutes) - KeysOf(app.explicit.routes) != {} <==> CatalogDisagrees(app)
  {
    var more := KeysOf(app.oinRoutes) - KeysOf(app.explicit.routes);
    if r :| r in app.oinRoutes && forall x :: x in app.explicit.routes ==> (x.acsUrl, x.spEntityId) != (r.acsUrl, r.spEntityId) {
      assert (r.acsUrl, r.spEntityId) in more;
    }
    if more != {} {
      var key :| key in more;
      var r :| r in app.oinRoutes && (r.acsUrl, r.spEntityId) == key;
      assert forall x :: x in app.explicit.routes ==> (x.acsUrl, x.spEntityId) in KeysOf(app.explicit.routes);
    }
  }

  /**
   Which routes an application has, exactly: its own, each marked as conflicting if and
   only if the catalog knows a route that they do not cover; else the catalog's, if
   nothing explicit is known; else none.
   */
  lemma RoutesExactly(app: Application)
    ensures var routes := SamlRoutes(app).0;
            if HasExplicitRoutes(app) then
              && |routes| == |app.explicit.routes|
              && forall i :: 0 <= i < |routes| ==>
                   var mark := if CatalogDisagrees(app) then [CONFLICT] else [];
                   routes[i] == app.explicit.routes[i].(conflicts := app.explicit.routes[i].conflicts + mark)
            else if HasOnlyCatalogRoutes(app) then routes == app.oinRoutes
            else routes == []
  {
    if HasExplicitRoutes(app) {
      DisagreesIffKeys(app);
      assert forall i :: 0 <= i < |app.explicit.routes| ==>
               app.explicit.routes[i].conflicts + [] == app.explicit.routes[i].conflicts;
    }
  }

  // ----- ACS id allocation

  /** The first index from `k` on that is not in `used`. */
  function FirstFree(used: set<int>, k: int): (r: int)
    ensures r >= k && r !in used
    ensures forall i :: k <= i < r ==> i in used
    decreases used
  {
    if k in used then FirstFree(used - {k}, k + 1) else k
  }

  function Preferred(routes: seq<Route>, i: nat): int
    requires i < |routes|
  {
    if routes[i].index.Some? then routes[i].index.value else i
  }

  function Indexes(routes: seq<Route>): (r: seq<int>)
    ensures |r| == |routes|
  {
    if routes == [] then []
    else
      var n := |routes| - 1;
      var earlier := Indexes(routes[..n]);
      earlier + [FirstFree((set k | k in earlier), Preferred(routes, n))]
  }

  datatype AcsRow = AcsRow(id: Id, route: Route, index: int)

  function AcsRows(app: string, routes: seq<Route>): seq<AcsRow> {
    seq(|routes|, i requires 0 <= i < |routes| =>
      AcsRow(AcsId(app, Indexes(routes)[i]), routes[i],
             if routes[i].index.Some? then routes[i].index.value else Indexes(routes)[i]))
  }

  lemma {:induction false} IndexesOfPrefix(routes: seq<Route>, i: nat)
    requires i <= |routes|
    ensures Indexes(routes)[..i] == Indexes(routes[..i])
  {
    if i < |routes| {
      IndexesOfPrefix(routes[..|routes| - 1], i);
      assert routes[..|routes| - 1][..i] == routes[..i];
      assert Indexes(routes)[..|routes| - 1] == Indexes(routes[..|routes| - 1]);
      assert Indexes(routes)[..|routes| - 1][..i] == Indexes(routes)[..i];
    } else {
      assert routes[..i] == routes;
    }
  }

  /** Each route gets the first index from its preferred one on that no earlier route took. */
  lemma IndexIsFirstFree(routes: seq<Route>, i: nat)
    requires i < |routes|
    ensures var ks := Indexes(routes);
            && ks[i] >= Preferred(routes, i)
            && ks[i] !in ks[..i]
            && forall k :: Preferred(routes, i) <= k < ks[i] ==> k in ks[..i]
  {
    IndexesOfPrefix(routes, i + 1);
    IndexesOfPrefix(routes, i);
    var init := routes[..i + 1];
    assert init[..i] == routes[..i];
    var used := set k | k in Indexes(routes[..i]);
    assert Indexes(routes)[i] == Indexes(routes)[..i + 1][i] == FirstFree(used, Preferred(routes, i));
    forall k | Preferred(routes, i) <= k < Indexes(routes)[i] ensures k in Indexes(routes)[..i] {
      assert k in used;
    }
  }

  /**
   ACS ids are pairwise distinct, and a route keeps its own index as its id exactly
   when no earlier route took that index.
   */
  lemma AcsIdsDistinct(app: string, routes: seq<Route>, i: nat, j: nat)
    requires i < |routes| && j < |routes|
    ensures |AcsRows(app, routes)| == |routes| && AcsRows(app, routes)[i].route == routes[i]
    ensures routes[i].index.Some? ==> AcsRows(app, routes)[i].index == routes[i].index.value
    ensures routes[i].index.None? ==> AcsRows(app, routes)[i].id == AcsId(app, AcsRows(app, routes)[i].index)
    ensures AcsRows(app, routes)[i].id == AcsRows(app, routes)[j].id ==> i == j
    ensures var own := AcsId(app, if routes[i].index.Some? then routes[i].index.value else i);
            AcsRows(app, routes)[i].id == own <==> forall k :: 0 <= k < i ==> AcsRows(app, routes)[k].id != own
  {
    var ks := Indexes(routes);
    IndexIsFirstFree(routes, i);
    IndexIsFirstFree(routes, j);
    assert i < j ==> ks[..j][i] == ks[i];
    assert j < i ==> ks[..i][j] == ks[j];
    assert forall k :: 0 <= k < i ==> ks[..i][k] == ks[k];
    if ks[i] != Preferred(routes, i) {
      assert Preferred(routes, i) in ks[..i];
      var k :| 0 <= k < i && ks[..i][k] == Preferred(routes, i);
      assert AcsRows(app, routes)[k].id == AcsId(app, Preferred(routes, i));
    }
  }

  lemma AcsRowsStep(app: string, routes: seq<Route>, i: nat)
    requires i < |routes|
    ensures var k := FirstFree((set k | k in Indexes(routes[..i])), Preferred(routes, i));
            && Indexes(routes[..i + 1]) == Indexes(routes[..i]) + [k]
            && AcsRows(app, routes[..i + 1])
               == AcsRows(app, routes[..i])
                  + [AcsRow(AcsId(app, k), routes[i], if routes[i].index.Some? then routes[i].index.value else k)]
  {
    var init := routes[..i + 1];
    assert init[..i] == routes[..i];
  }

  /** Probe upwards for an unused index; the loop ends because `used` is finite. */
  method Probe(used: set<int>, preferred: int) returns (idIndex: int)
    ensures idIndex == FirstFree(used, preferred)
  {
    idIndex := preferred;
    while idIndex in used
      invariant preferred <= idIndex <= FirstFree(used, preferred)
      decreases FirstFree(used, preferred) - idIndex
    {
      idIndex := idIndex + 1;
    }
  }

  method SamlAcsRows(app: string, routes: seq<Route>) returns (rows: seq<AcsRow>)
    ensures rows == AcsRows(app, routes)
  {
    rows := [];
    var used: set<int> := {};
    for i := 0 to |routes|
      invariant rows == AcsRows(app, routes[..i])
      invariant used == set k | k in Indexes(routes[..i])
    {
      var route := routes[i];
      var preferred := if route.index.Some? then route.index.value else |rows|;
      AcsRowsStep(app, routes, i);
      var idIndex := Probe(used, preferred);
      used := used + {idIndex};
      rows := rows + [AcsRow(AcsId(app, idIndex), route, if route.index.Some? then route.index.value else idIndex)];
    }
    assert routes[..|routes|] == routes;
  }

  // ----- Rows of an application, and the provider that refers to them

  /** One row per NameID template and usable statement, numbered as they come. */
  function ClaimMappingIds(app: Application): seq<Id> {
    if !app.isSaml || !app.hasSignOn then []
    else
      var first := if app.hasNameIdTemplate then [ClaimMappingId(app.id, 0)] else [];
      Numbered(app.id, first, app.statements)
  }

  function Numbered(app: string, ids: seq<Id>, statements: seq<bool>): seq<Id>
    decreases statements
  {
    if statements == [] then ids
    else if statements[0] then Numbered(app, ids + [ClaimMappingId(app, |ids|)], statements[1..])
    else Numbered(app, ids, statements[1..])
  }

  lemma {:induction false} NumberedInOrder(app: string, ids: seq<Id>, statements: seq<bool>)
    requires forall i :: 0 <= i < |ids| ==> ids[i] == ClaimMappingId(app, i)
    ensures var r := Numbered(app, ids, statements);
            forall i :: 0 <= i < |r| ==> r[i] == ClaimMappingId(app, i)
    decreases statements
  {
    if statements != [] {
      NumberedInOrder(app, if statements[0] then ids + [ClaimMappingId(app, |ids|)] else ids, statements[1..]);
    }
  }

  function CountUsable(statements: seq<bool>): nat {
    if statements == [] then 0 else (if statements[0] then 1 else 0) + CountUsable(statements[1..])
  }

  lemma {:induction false} NumberedCounts(app: string, ids: seq<Id>, statements: seq<bool>)
    ensures |Numbered(app, ids, statements)| == |ids| + CountUsable(statements)
    decreases statements
  {
    if statements != [] {
      NumberedCounts(app, if statements[0] then ids + [ClaimMappingId(app, |ids|)] else ids, statements[1..]);
    }
  }

  /** A signed-on SAML application has one mapping for its NameID template, if any, and one per usable statement, numbered from zero. */
  lemma ClaimMappingsExactly(app: Application)
    ensures var ids := ClaimMappingIds(app);
            && |ids| == (if app.isSaml && app.hasSignOn
                         then (if app.hasNameIdTemplate then 1 else 0) + CountUsable(app.statements) else 0)
            && forall i :: 0 <= i < |ids| ==> ids[i] == ClaimMappingId(app.id, i)
  {
    var first := if app.hasNameIdTemplate then [ClaimMappingId(app.id, 0)] else [];
    NumberedInOrder(app.id, first, app.statements);
    NumberedCounts(app.id, first, app.statements);
  }

  method SamlClaimMappingIds(app: Application) returns (ids: seq<Id>)
    ensures ids == ClaimMappingIds(app)
  {
    ids := [];
    if !app.isSaml || !app.hasSignOn {
      return;
    }
    if app.hasNameIdTemplate {
      ids := ids + [ClaimMappingId(app.id, |ids|)];
    }
    ghost var first := ids;
    assert first == if app.hasNameIdTemplate then [ClaimMappingId(app.id, 0)] else [];
    var statements := app.statements;
    for i := 0 to |statements|
      invariant Numbered(app.id, ids, statements[i..]) == Numbered(app.id, first, statements)
    {
      assert statements[i..][0] == statements[i] && statements[i..][1..] == statements[i + 1..];
      if statements[i] {
        ids := ids + [ClaimMappingId(app.id, |ids|)];
      }
    }
    assert statements[|statements|..] == [];
  }

  function IssuerRow(app: Application): Option<Id> {
    if app.isSaml && app.idpIssuer.Some? then Some(IssuerId(app.id)) else None
  }

  datatype Provider = Provider(id: Id, issuerId: Option<Id>, acsIds: seq<Id>, claimMappingIds: seq<Id>)

  function IdsOf(rows: seq<AcsRow>): seq<Id> {
    seq(|rows|, i requires 0 <= i < |rows| => rows[i].id)
  }

  function ApplicationAcsRows(app: Application): seq<AcsRow> {
    AcsRows(app.id, SamlRoutes(app).0)
  }

  function ProviderRow(app: Application): Option<Provider> {
    if !app.isSaml then None
    else
      Some(Provider(ProviderId(app.id), if app.idpIssuer.Some? then Some(IssuerId(app.id)) else None,
                    IdsOf(ApplicationAcsRows(app)), ClaimMappingIds(app)))
  }

  /** Every id in a provider row names an emitted row, every emitted row is named, and without a provider there are no rows. */
  lemma ProviderReferencesResolve(app: Application)
    ensures ProviderRow(app).Some? ==>
              var p := ProviderRow(app).value;
              && p.issuerId == IssuerRow(app)
              && (p.issuerId.Some? <==> app.idpIssuer.Some?)
              && (forall id :: id in p.acsIds <==> exists r :: r in ApplicationAcsRows(app) && r.id == id)
              && p.claimMappingIds == ClaimMappingIds(app)
              && NoDuplicates(p.acsIds) && NoDuplicates(p.claimMappingIds)
    ensures ProviderRow(app).None? ==>
              ApplicationAcsRows(app) == [] && IssuerRow(app).None? && ClaimMappingIds(app) == []
  {
    var rows := ApplicationAcsRows(app);
    var ids := IdsOf(rows);
    var routes := SamlRoutes(app).0;
    forall i, j | 0 <= i < j < |ids| ensures ids[i] != ids[j] {
      AcsIdsDistinct(app.id, routes, i, j);
    }
    forall id ensures id in ids <==> exists r :: r in rows && r.id == id {
      if r :| r in rows && r.id == id {
        var i :| 0 <= i < |rows| && rows[i] == r;
        assert ids[i] == id;
      }
      if id in ids {
        var i :| 0 <= i < |ids| && ids[i] == id;
        assert rows[i] in rows;
      }
    }
    NumberedInOrder(app.id, if app.hasNameIdTemplate then [ClaimMappingId(app.id, 0)] else [], app.statements);
    var mappings := ClaimMappingIds(app);
    assert forall i :: 0 <= i < |mappings| ==> mappings[i] == ClaimMappingId(app.id, i);
  }

  // ----- Identity providers

  datatype Template = IdpUserEmail | IdpUserSubject | SamlSubject | OtherTemplate

  /** The parts of the account-link policy that the resolution looks at. */
  datatype Policy = Policy(
    accountLinkIsObject: bool,
    subjectIsObject: bool,
    actionIsAuto: bool,
    linkFilterIsEmpty: bool,
    matchesUsername: bool,
    subjectFilterIsEmpty: bool,
    matchAttributeIsEmpty: bool,
    transformsUsername: bool,
    template: Template)

  datatype AssertionField = EmailValues | ScopedValues

  datatype Resolution = Resolution(
    expression: Option<AssertionField>, summary: Option<AssertionField>, diagnostics: seq<string>)

  function FieldOf(t: Template): Option<AssertionField> {
    match t
    case IdpUserEmail => Some(EmailValues)
    case IdpUserSubject => Some(ScopedValues)
    case SamlSubject => Some(ScopedValues)
    case OtherTemplate => None
  }

  function Complaint(wrong: bool, text: string): seq<string> {
    if wrong then [text] else []
  }

  function AccountResolution(isSaml: bool, policy: Option<Policy>): Resolution {
    if !isSaml then Resolution(None, None, [])
    else if policy.None? then Resolution(None, None, ["missing_identity_provider_policy"])
    else
      var p := policy.value;
      var field := if p.subjectIsObject then FieldOf(p.template) else None;
      var diagnostics :=
        Complaint(!p.accountLinkIsObject, "missing_policy.accountLink")
        + Complaint(!p.subjectIsObject, "missing_policy.subject")
        + Complaint(!p.accountLinkIsObject || !p.actionIsAuto, "policy.accountLink.action_must_be_AUTO")
        + Complaint(p.accountLinkIsObject && !p.linkFilterIsEmpty, "policy.accountLink.filter_is_scoped_or_unsupported")
        + Complaint(!p.subjectIsObject || !p.matchesUsername, "policy.subject.matchType_must_be_USERNAME")
        + Complaint(p.subjectIsObject && !p.subjectFilterIsEmpty, "policy.subject.filter_is_unsupported")
        + Complaint(p.subjectIsObject && !p.matchAttributeIsEmpty, "policy.subject.matchAttribute_conflicts_with_username")
        + Complaint(p.transformsUsername, "transformed_username_matching_is_unsupported")
        + Complaint(field.None?, "policy.subject.userNameTemplate_is_unsupported");
      if diagnostics != [] then Resolution(None, None, diagnostics) else Resolution(field, field, [])
  }

  datatype Endpoint = Endpoint(url: Option<string>, index: Option<int>)

  /** `alias` is the trust-specific URL derived from the shared ACS URL, when the provider is eligible for one. */
  datatype IdentityProvider = IdentityProvider(
    id: string,
    isSaml: bool,
    issuer: Option<string>,
    spEntityId: Option<string>,
    metadata: seq<Endpoint>,
    sharedUrl: Option<string>,
    alias: Option<string>,
    policy: Option<Policy>)

  datatype SpAcsRow = SpAcsRow(id: Id, url: string, index: int)

  predicate HasUrl(rows: seq<SpAcsRow>, url: string) {
    exists r :: r in rows && r.url == url
  }

  /** The metadata endpoints with a URL, each URL once, at its first place. */
  function MetadataRows(idp: string, endpoints: seq<Endpoint>): seq<SpAcsRow> {
    if endpoints == [] then []
    else
      var rows, e := MetadataRows(idp, endpoints[..|endpoints| - 1]), endpoints[|endpoints| - 1];
      if e.url.None? || HasUrl(rows, e.url.value) then rows
      else rows + [SpAcsRow(SpAcsId(idp, |rows|), e.url.value, if e.index.Some? then e.index.value else |rows|)]
  }

  /** One more than the largest index in use; the program starts the search at -1. */
  function AliasIndex(rows: seq<SpAcsRow>): (k: int)
    ensures forall r :: r in rows ==> r.index < k
  {
    if rows == [] then 0
    else
      var n := |rows| - 1;
      assert rows == rows[..n] + [rows[n]];
      if n == 0 then rows[0].index + 1 else MaxInt(AliasIndex(rows[..n]), rows[n].index + 1)
  }

  function BaseRows(p: IdentityProvider): seq<SpAcsRow> {
    var metadata := MetadataRows(p.id, p.metadata);
    if metadata != [] then metadata
    else if p.sharedUrl.Some? then [SpAcsRow(SpAcsId(p.id, 0), p.sharedUrl.value, 0)]
    else []
  }

  function SpAcsRows(p: IdentityProvider): seq<SpAcsRow> {
    if !p.isSaml || p.spEntityId.None? then []
    else
      var rows := BaseRows(p);
      if rows == [] || p.alias.None? || p.sharedUrl.None? || !HasUrl(rows, p.sharedUrl.value)
         || HasUrl(rows, p.alias.value)
      then rows
      else rows + [SpAcsRow(SpAcsId(p.id, |rows|), p.alias.value, AliasIndex(rows))]
  }

  method SamlSpAcsRows(p: IdentityProvider) returns (rows: seq<SpAcsRow>)
    ensures rows == SpAcsRows(p)
  {
    rows := [];
    if !p.isSaml || p.spEntityId.None? {
      return;
    }
    var seenUrls: set<string> := {};
    for i := 0 to |p.metadata|
      invariant rows == MetadataRows(p.id, p.metadata[..i])
      invariant forall url :: url in seenUrls <==> HasUrl(rows, url)
    {
      assert p.metadata[..i + 1][..i] == p.metadata[..i];
      var e := p.metadata[i];
      if e.url.Some? && e.url.value !in seenUrls {
        var row := SpAcsRow(SpAcsId(p.id, |rows|), e.url.value, if e.index.Some? then e.index.value else |rows|);
        HasUrlAppend(rows, row);
        seenUrls := seenUrls + {e.url.value};
        rows := rows + [row];
      }
    }
    assert p.metadata[..|p.metadata|] == p.metadata;
    if rows == [] {
      if p.sharedUrl.None? {
        return;
      }
      rows := [SpAcsRow(SpAcsId(p.id, 0), p.sharedUrl.value, 0)];
      HasUrlAppend([], rows[0]);
      seenUrls := {p.sharedUrl.value};
    }
    if p.alias.None? || p.sharedUrl.None? || p.sharedUrl.value !in seenUrls || p.alias.value in seenUrls {
      return;
    }
    rows := rows + [SpAcsRow(SpAcsId(p.id, |rows|), p.alias.value, AliasIndex(rows))];
  }

  lemma HasUrlAppend(rows: seq<SpAcsRow>, row: SpAcsRow)
    ensures forall url :: HasUrl(rows + [row], url) <==> HasUrl(rows, url) || url == row.url
  {
    assert row in rows + [row];
  }

  ghost predicate WellNumbered(idp: string, rows: seq<SpAcsRow>) {
    && (forall i :: 0 <= i < |rows| ==> rows[i].id == SpAcsId(idp, i))
    && forall i, j :: 0 <= i < j < |rows| ==> rows[i].url != rows[j].url
  }

  lemma {:induction false} MetadataWellNumbered(idp: string, endpoints: seq<Endpoint>)
    ensures WellNumbered(idp, MetadataRows(idp, endpoints))
  {
    if endpoints != [] {
      var e, rows := endpoints[|endpoints| - 1], MetadataRows(idp, endpoints[..|endpoints| - 1]);
      MetadataWellNumbered(idp, endpoints[..|endpoints| - 1]);
      if e.url.Some? && !HasUrl(rows, e.url.value) {
        var row := SpAcsRow(SpAcsId(idp, |rows|), e.url.value, if e.index.Some? then e.index.value else |rows|);
        WellNumberedOneMore(idp, rows, row);
        assert MetadataRows(idp, endpoints) == rows + [row];
      }
    }
  }

  lemma WellNumberedOneMore(idp: string, rows: seq<SpAcsRow>, row: SpAcsRow)
    requires WellNumbered(idp, rows) && row.id == SpAcsId(idp, |rows|) && !HasUrl(rows, row.url)
    ensures WellNumbered(idp, rows + [row])
  {
    var more := rows + [row];
    assert more[|rows|] == row;
    forall i | 0 <= i < |rows| ensures more[i].url != row.url {
      assert more[i] == rows[i] && rows[i] in rows;
    }
  }

  lemma {:induction false} MetadataUrlsExactly(idp: string, endpoints: seq<Endpoint>, url: string)
    ensures HasUrl(MetadataRows(idp, endpoints), url) <==> exists i :: 0 <= i < |endpoints| && endpoints[i].url == Some(url)
  {
    if endpoints != [] {
      var n := |endpoints| - 1;
      var rows, e := MetadataRows(idp, endpoints[..n]), endpoints[n];
      MetadataUrlsExactly(idp, endpoints[..n], url);
      assert forall i :: 0 <= i < n ==> endpoints[..n][i] == endpoints[i];
      if e.url.Some? {
        HasUrlAppend(rows, SpAcsRow(SpAcsId(idp, |rows|), e.url.value, if e.index.Some? then e.index.value else |rows|));
      }
    }
  }

  predicate HasMetadataUrl(p: IdentityProvider, url: string) {
    exists i :: 0 <= i < |p.metadata| && p.metadata[i].url == Some(url)
  }

  predicate HasAnyMetadataUrl(p: IdentityProvider) {
    exists i :: 0 <= i < |p.metadata| && p.metadata[i].url.Some?
  }

  /** The URLs before the alias: those of the metadata, or the shared one if the metadata have none. */
  predicate HasBaseUrl(p: IdentityProvider, url: string) {
    if HasAnyMetadataUrl(p) then HasMetadataUrl(p, url) else p.sharedUrl == Some(url)
  }

  lemma BaseUrlsExactly(p: IdentityProvider, url: string)
    ensures HasUrl(BaseRows(p), url) <==> HasBaseUrl(p, url)
  {
    var metadata := MetadataRows(p.id, p.metadata);
    MetadataUrlsExactly(p.id, p.metadata, url);
    if metadata != [] {
      assert HasUrl(metadata, metadata[0].url);
      MetadataUrlsExactly(p.id, p.metadata, metadata[0].url);
      var i :| 0 <= i < |p.metadata| && p.metadata[i].url == Some(metadata[0].url);
    } else {
      forall i | 0 <= i < |p.metadata| ensures p.metadata[i].url.None? {
        if p.metadata[i].url.Some? {
          MetadataUrlsExactly(p.id, p.metadata, p.metadata[i].url.value);
        }
      }
      if p.sharedUrl.Some? {
        assert BaseRows(p)[0] in BaseRows(p);
      }
    }
  }

  /**
   A service provider has a row for exactly these URLs: those of its metadata, or the
   shared one if the metadata have none; and the trust-specific alias, if the shared URL
   is among them.
   */
  lemma SpAcsUrlsExactly(p: IdentityProvider, url: string)
    ensures HasUrl(SpAcsRows(p), url) <==>
              && p.isSaml && p.spEntityId.Some?
              && (|| HasBaseUrl(p, url)
                  || (p.alias == Some(url) && p.sharedUrl.Some? && HasBaseUrl(p, p.sharedUrl.value)))
  {
    var base := BaseRows(p);
    BaseUrlsExactly(p, url);
    if p.sharedUrl.Some? {
      BaseUrlsExactly(p, p.sharedUrl.value);
    }
    if p.alias.Some? {
      HasUrlAppend(base, SpAcsRow(SpAcsId(p.id, |base|), p.alias.value, AliasIndex(base)));
    }
  }

  lemma BaseWellNumbered(p: IdentityProvider)
    ensures WellNumbered(p.id, BaseRows(p))
  {
    MetadataWellNumbered(p.id, p.metadata);
  }

  /** Service-provider ACS rows have distinct ids and distinct URLs, and an alias never reuses an index. */
  lemma SpAcsRowsDistinct(p: IdentityProvider)
    ensures WellNumbered(p.id, SpAcsRows(p))
    ensures var rows := SpAcsRows(p);
            |rows| == |BaseRows(p)| + 1 ==>
              forall i :: 0 <= i < |rows| - 1 ==> rows[i].index < rows[|rows| - 1].index
  {
    var base, rows := BaseRows(p), SpAcsRows(p);
    BaseWellNumbered(p);
    if rows != base && rows != [] {
      var alias := SpAcsRow(SpAcsId(p.id, |base|), p.alias.value, AliasIndex(base));
      WellNumberedOneMore(p.id, base, alias);
      assert rows == base + [alias];
    }
  }

  datatype ServiceProvider = ServiceProvider(
    id: Id, issuerId: Option<Id>, acsIds: seq<Id>, ruleId: Option<Id>, ruleFieldId: Option<Id>)

  function SpIds(rows: seq<SpAcsRow>): seq<Id> {
    seq(|rows|, i requires 0 <= i < |rows| => rows[i].id)
  }

  function ServiceProviderRow(p: IdentityProvider, tenant: string): Option<ServiceProvider> {
    if !p.isSaml then None
    else
      var rule := if AccountResolution(p.isSaml, p.policy).expression.Some? then Some(RuleId(p.id)) else None;
      Some(ServiceProvider(
        ServiceProviderId(p.id),
        if p.issuer.Some? then Some(TrustedIssuerId(p.issuer.value, tenant)) else None,
        SpIds(SpAcsRows(p)), rule, if rule.Some? then Some(RuleFieldId(p.id)) else None))
  }

  function RuleRow(p: IdentityProvider): Option<(Id, Id)> {
    var r := AccountResolution(p.isSaml, p.policy);
    if r.expression.None? || r.summary.None? then None else Some((RuleId(p.id), RuleFieldId(p.id)))
  }

  function RuleFieldRow(p: IdentityProvider): Option<Id> {
    if AccountResolution(p.isSaml, p.policy).expression.None? then None else Some(RuleFieldId(p.id))
  }

  function TrustedIssuerRow(p: IdentityProvider, tenant: string): Option<Id> {
    if !p.isSaml || p.issuer.None? then None else Some(TrustedIssuerId(p.issuer.value, tenant))
  }

  /** A service provider's issuer, ACS, rule and rule-field ids exist exactly when their rows are emitted. */
  lemma ServiceProviderReferencesResolve(p: IdentityProvider, tenant: string)
    ensures ServiceProviderRow(p, tenant).Some? ==>
              var s := ServiceProviderRow(p, tenant).value;
              && s.issuerId == TrustedIssuerRow(p, tenant)
              && (s.issuerId == if p.issuer.Some? then Some(TrustedIssuerId(p.issuer.value, tenant)) else None)
              && s.ruleFieldId == RuleFieldRow(p)
              && (RuleRow(p) == if s.ruleId.Some? then Some((s.ruleId.value, s.ruleFieldId.value)) else None)
              && s.acsIds == SpIds(SpAcsRows(p))
              && NoDuplicates(s.acsIds)
    ensures ServiceProviderRow(p, tenant).None? ==>
              && TrustedIssuerRow(p, tenant).None? && RuleRow(p).None? && RuleFieldRow(p).None? && SpAcsRows(p) == []
  {
    AcsReferencesResolve(p);
    RuleRowFollowsExpression(p);
  }

  lemma RuleRowFollowsExpression(p: IdentityProvider)
    ensures var r := AccountResolution(p.isSaml, p.policy);
            && (RuleRow(p) == if r.expression.Some? then Some((RuleId(p.id), RuleFieldId(p.id))) else None)
            && (r.expression.Some? ==> p.isSaml)
  {
  }

  lemma AcsReferencesResolve(p: IdentityProvider)
    ensures var rows, ids := SpAcsRows(p), SpIds(SpAcsRows(p));
            && |ids| == |rows|
            && (forall i :: 0 <= i < |ids| ==> ids[i] == rows[i].id)
            && NoDuplicates(ids)
  {
    SpAcsRowsDistinct(p);
  }

  /** The resolution names a field exactly when it has no complaint, and then the template's. */
  lemma ResolutionNamesTemplateField(p: Policy)
    ensures var r := AccountResolution(true, Some(p));
            && r.expression == r.summary
            && (r.expression.Some? <==> r.diagnostics == [])
            && (r.expression == Some(EmailValues) ==> p.template.IdpUserEmail?)
            && (r.expression == Some(ScopedValues) ==> p.template.IdpUserSubject? || p.template.SamlSubject?)
  {
  }

  /** A rule is written exactly when every part of the policy proves an automatic, unscoped username match. */
  lemma RuleOnlyWhenProven(p: IdentityProvider)
    ensures RuleRow(p).Some? <==>
              && p.isSaml && p.policy.Some?
              && var q := p.policy.value;
                 && q.accountLinkIsObject && q.subjectIsObject && q.actionIsAuto && q.linkFilterIsEmpty
                 && q.matchesUsername && q.subjectFilterIsEmpty && q.matchAttributeIsEmpty
                 && !q.transformsUsername && !q.template.OtherTemplate?
  {
  }
}
