/**
 The assertion evidence of one application assignment: a fold over the claim
 mappings of the application. Text processing (expressions, casefolding, UUIDs,
 e-mail shapes) enters through `Env` and through already parsed mappings.
 */
module SamlEvidence {
  import opened Basics

  datatype Namespace = SourceUser | OktaUser | ApplicationUser

  /** The casefolded field name, as far as it decides anything. */
  datatype FieldKind = MailField | PrincipalField | LoginField | PlainField

  /** A direct profile expression; `property` is its dotted text. */
  datatype Field = Field(namespace: Namespace, kind: FieldKind, property: string)

  datatype Format = TransientFormat | EmailFormat | PersistentFormat | OtherFormat

  datatype ClaimName = EmailClaim | UpnClaim | ObjectIdClaim | OtherClaim

  /** The declared source property of a mapping, if any, and the profile field it parses to. */
  datatype Declared = Undeclared | DeclaredAs(field: Option<Field>)

  datatype Mapping = Mapping(
    id: Option<string>,
    isNameId: bool,
    format: Format,
    fromUserName: bool,
    claimName: ClaimName,
    direct: Option<Field>,
    declared: Declared)

  datatype Family = Transient | Email | Upn | ObjectId | Scoped | RawNameId | Exceptional

  const COMMON_FIELDS: seq<Family> := [Email, Upn, ObjectId, Scoped]

  predicate IsCommon(f: Family) {
    f.Email? || f.Upn? || f.ObjectId? || f.Scoped?
  }

  /** The assignment's profile values and the text functions. */
  datatype Env = Env(
    values: Field -> seq<string>,
    strip: string -> string,
    casefold: string -> string,
    uuid: string -> Option<string>,
    loginEmail: string -> Option<string>,
    sourceProfileKnown: bool)

  datatype Claim = Claim(
    mappingId: string,
    matchValues: seq<string>,
    canonicalMatchValues: seq<string>,
    unsafeMatchValues: seq<string>,
    incomplete: bool,
    sourceProperty: Option<string>)

  datatype Evidence = Evidence(
    matchValues: seq<string>,
    email: seq<string>,
    upn: seq<string>,
    objectId: seq<string>,
    scoped: seq<string>,
    incomplete: seq<Family>,
    sourceProperties: seq<string>,
    claimValues: seq<Claim>)

  // ----- One mapping

  function ClaimFamily(m: Mapping): Family {
    if m.isNameId then
      if m.format.TransientFormat? then Transient
      else if m.format.EmailFormat? then Email
      else if m.format.PersistentFormat? then Scoped
      else if m.fromUserName then Scoped
      else if m.direct.Some? && m.direct.value.kind.MailField? then Email
      else if m.direct.Some? && m.direct.value.kind.PrincipalField? then Upn
      else RawNameId
    else
      match m.claimName
      case EmailClaim => Email
      case UpnClaim => Upn
      case ObjectIdClaim => ObjectId
      case OtherClaim => Exceptional
  }

  function Canonical(env: Env, f: Family, value: string): Option<string> {
    var stripped := env.strip(value);
    match f
    case Email => Some(env.casefold(stripped))
    case Upn => Some(env.casefold(stripped))
    case ObjectId => env.uuid(stripped)
    case Scoped => Some(stripped)
    case _ => None
  }

  function Canonicals(env: Env, f: Family, values: seq<string>): seq<string> {
    if values == [] then []
    else
      var last := Canonical(env, f, values[|values| - 1]);
      Canonicals(env, f, values[..|values| - 1]) + (if last.Some? then [last.value] else [])
  }

  predicate SourceConflict(m: Mapping) {
    m.direct.Some? && m.declared.DeclaredAs? && m.declared.field != m.direct
  }

  predicate Resolvable(m: Mapping) {
    m.direct.Some? && !SourceConflict(m)
  }

  function ValuesOf(env: Env, m: Mapping): seq<string> {
    if Resolvable(m) then env.values(m.direct.value) else []
  }

  function LoginEmails(env: Env, values: seq<string>): seq<string> {
    if values == [] then []
    else
      var last := env.loginEmail(values[|values| - 1]);
      LoginEmails(env, values[..|values| - 1]) + (if last.Some? then [last.value] else [])
  }

  function LoginsOf(env: Env, m: Mapping): seq<string> {
    if Resolvable(m) && m.isNameId && !ClaimFamily(m).Transient?
       && env.sourceProfileKnown && m.direct.value.namespace.SourceUser? && m.direct.value.kind.LoginField?
    then LoginEmails(env, ValuesOf(env, m)) else []
  }

  function PropertyOf(m: Mapping): Option<string> {
    if m.direct.Some? then Some(m.direct.value.property) else None
  }

  /** The mapping feeds the match-value lists; otherwise it becomes a claim value of its own. */
  predicate Matches(env: Env, m: Mapping) {
    IsCommon(ClaimFamily(m)) || (ClaimFamily(m).RawNameId? && ValuesOf(env, m) != [])
  }

  function ClaimOf(env: Env, m: Mapping): Option<Claim> {
    if Matches(env, m) || m.id.None? then None
    else
      var values := ValuesOf(env, m);
      var transient := ClaimFamily(m).Transient?;
      Some(Claim(m.id.value, values, if transient then [] else values, if transient then values else [],
                 !Resolvable(m) || values == [], PropertyOf(m)))
  }

  /** Some value of the mapping is missing from its family's canonical list. */
  predicate Falls(env: Env, m: Mapping, f: Family) {
    && ClaimFamily(m) == f
    && (|| !Resolvable(m)
        || |Canonicals(env, f, ValuesOf(env, m))| != |ValuesOf(env, m)|
        || ValuesOf(env, m) == [])
  }

  // ----- All mappings

  datatype Kind = MatchValues | CommonValues(family: Family) | SourceProperties

  /** What one mapping adds to one list. */
  function Part(env: Env, m: Mapping, kind: Kind): seq<string> {
    if !Matches(env, m) then []
    else
      match kind
      case MatchValues => ValuesOf(env, m)
      case CommonValues(f) =>
        (if IsCommon(f) && ClaimFamily(m) == f then Canonicals(env, f, ValuesOf(env, m)) else [])
        + (if f.Email? then LoginsOf(env, m) else [])
      case SourceProperties =>
        if ValuesOf(env, m) != [] && PropertyOf(m).Some? then [PropertyOf(m).value] else []
  }

  function Collect(env: Env, ms: seq<Mapping>, kind: Kind): seq<string> {
    if ms == [] then [] else Collect(env, ms[..|ms| - 1], kind) + Part(env, ms[|ms| - 1], kind)
  }

  function Claims(env: Env, ms: seq<Mapping>): seq<Claim> {
    if ms == [] then []
    else
      var last := ClaimOf(env, ms[|ms| - 1]);
      Claims(env, ms[..|ms| - 1]) + (if last.Some? then [last.value] else [])
  }

  predicate SomeFalls(env: Env, ms: seq<Mapping>, f: Family) {
    exists i :: 0 <= i < |ms| && Falls(env, ms[i], f)
  }

  function IncompleteSet(env: Env, ms: seq<Mapping>): set<Family> {
    set f: Family | f in COMMON_FIELDS && SomeFalls(env, ms, f)
  }

  /** The marked fields, in the order of `fields`. */
  function InOrder(fields: seq<Family>, marked: set<Family>): seq<Family> {
    if fields == [] then []
    else (if fields[0] in marked then [fields[0]] else []) + InOrder(fields[1..], marked)
  }

  function EvidenceOf(env: Env, ms: seq<Mapping>): Evidence {
    Evidence(
      Distinct(Collect(env, ms, MatchValues)),
      Distinct(Collect(env, ms, CommonValues(Email))),
      Distinct(Collect(env, ms, CommonValues(Upn))),
      Distinct(Collect(env, ms, CommonValues(ObjectId))),
      Distinct(Collect(env, ms, CommonValues(Scoped))),
      InOrder(COMMON_FIELDS, IncompleteSet(env, ms)),
      Distinct(Collect(env, ms, SourceProperties)),
      Claims(env, ms))
  }

  const NoEvidence := Evidence([], [], [], [], [], COMMON_FIELDS, [], [])

  /** `claimMappings` is None when the caller has no preprocessed mappings and relies on the fallback. */
  function AssertionEvidence(env: Env, claimMappings: Option<seq<Mapping>>, fallback: Mapping): Evidence {
    if claimMappings.None? then EvidenceOf(env, [fallback])
    else if claimMappings.value == [] then NoEvidence
    else EvidenceOf(env, claimMappings.value)
  }

  // ----- The loop of the program

  /** The lists that the loop grows, and the set of fields it has marked incomplete. */
  datatype Draft = Draft(
    matchValues: seq<string>,
    email: seq<string>,
    upn: seq<string>,
    objectId: seq<string>,
    scoped: seq<string>,
    sourceProperties: seq<string>,
    claimValues: seq<Claim>,
    incomplete: set<Family>)

  function DraftOf(env: Env, ms: seq<Mapping>): Draft {
    Draft(
      Collect(env, ms, MatchValues), Collect(env, ms, CommonValues(Email)), Collect(env, ms, CommonValues(Upn)),
      Collect(env, ms, CommonValues(ObjectId)), Collect(env, ms, CommonValues(Scoped)),
      Collect(env, ms, SourceProperties), Claims(env, ms),
      IncompleteSet(env, ms))
  }

  function Extended(env: Env, d: Draft, m: Mapping): Draft {
    Draft(
      d.matchValues + Part(env, m, MatchValues),
      d.email + Part(env, m, CommonValues(Email)),
      d.upn + Part(env, m, CommonValues(Upn)),
      d.objectId + Part(env, m, CommonValues(ObjectId)),
      d.scoped + Part(env, m, CommonValues(Scoped)),
      d.sourceProperties + Part(env, m, SourceProperties),
      d.claimValues + (if ClaimOf(env, m).Some? then [ClaimOf(env, m).value] else []),
      d.incomplete + (set f: Family | f in COMMON_FIELDS && Falls(env, m, f)))
  }

  lemma StepDrafts(env: Env, ms: seq<Mapping>, i: nat)
    requires i < |ms|
    ensures DraftOf(env, ms[..i + 1]) == Extended(env, DraftOf(env, ms[..i]), ms[i])
  {
    StepCollects(env, ms, i);
    assert DraftOf(env, ms[..i + 1]).incomplete == Extended(env, DraftOf(env, ms[..i]), ms[i]).incomplete;
  }

  lemma Regroup(a: seq<string>, b: seq<string>, c: seq<string>)
    ensures (a + b) + c == a + (b + c) && a + [] == a && [] + c == c
  {
  }

  lemma CommonParts(env: Env, m: Mapping)
    requires IsCommon(ClaimFamily(m))
    ensures ClaimOf(env, m).None?
    ensures Part(env, m, MatchValues) == ValuesOf(env, m)
    ensures forall f: Family :: !f.Email? && f != ClaimFamily(m) ==> Part(env, m, CommonValues(f)) == []
    ensures var f := ClaimFamily(m);
            var canonicals := Canonicals(env, f, ValuesOf(env, m));
            && (!f.Email? ==> Part(env, m, CommonValues(f)) == canonicals)
            && Part(env, m, CommonValues(Email)) == (if f.Email? then canonicals else []) + LoginsOf(env, m)
    ensures (set f: Family | f in COMMON_FIELDS && Falls(env, m, f))
         == if Falls(env, m, ClaimFamily(m)) then {ClaimFamily(m)} else {}
  {
    var f := ClaimFamily(m);
    assert f in COMMON_FIELDS by {
      assert COMMON_FIELDS[0] == Email && COMMON_FIELDS[1] == Upn && COMMON_FIELDS[2] == ObjectId && COMMON_FIELDS[3] == Scoped;
    }
    Regroup(Canonicals(env, f, ValuesOf(env, m)), [], []);
  }

  /** What the branch for the common families adds, told from the values it has looked up. */
  function WithCommon(d: Draft, family: Family, values: seq<string>, canonicals: seq<string>, logins: seq<string>,
                      property: seq<string>, falls: bool): Draft {
    Draft(
      d.matchValues + values,
      (if family.Email? then d.email + canonicals else d.email) + logins,
      if family.Upn? then d.upn + canonicals else d.upn,
      if family.ObjectId? then d.objectId + canonicals else d.objectId,
      if family.Scoped? then d.scoped + canonicals else d.scoped,
      d.sourceProperties + property, d.claimValues,
      if falls then d.incomplete + {family} else d.incomplete)
  }

  lemma CommonExtends(env: Env, d: Draft, m: Mapping)
    requires IsCommon(ClaimFamily(m))
    ensures var f := ClaimFamily(m);
            Extended(env, d, m)
            == WithCommon(d, f, ValuesOf(env, m), Canonicals(env, f, ValuesOf(env, m)), LoginsOf(env, m),
                          Part(env, m, SourceProperties), Falls(env, m, f))
  {
    CommonParts(env, m);
    var f, values := ClaimFamily(m), ValuesOf(env, m);
    Regroup(d.email, if f.Email? then Canonicals(env, f, values) else [], LoginsOf(env, m));
    Unchanged(d);
  }

  lemma Unchanged(d: Draft)
    ensures d.email + [] == d.email && d.upn + [] == d.upn && d.objectId + [] == d.objectId && d.scoped + [] == d.scoped
    ensures d.claimValues + [] == d.claimValues && d.incomplete + {} == d.incomplete
  {
  }

  method AddCommon(env: Env, d: Draft, m: Mapping, family: Family, values: seq<string>, logins: seq<string>)
    returns (r: Draft)
    requires family == ClaimFamily(m) && values == ValuesOf(env, m) && logins == LoginsOf(env, m) && IsCommon(family)
    ensures r == WithCommon(d, family, values, Canonicals(env, family, values), logins,
                            Part(env, m, SourceProperties), Falls(env, m, family))
  {
    var canonicals := Canonicals(env, family, values);
    r := d;
    if !Resolvable(m) || |canonicals| != |values| || values == [] {
      r := r.(incomplete := r.incomplete + {family});
    }
    r := r.(matchValues := r.matchValues + values);
    match family {
      case Email => r := r.(email := r.email + canonicals);
      case Upn => r := r.(upn := r.upn + canonicals);
      case ObjectId => r := r.(objectId := r.objectId + canonicals);
      case _ => r := r.(scoped := r.scoped + canonicals);
    }
    r := r.(email := r.email + logins);
    if values != [] && PropertyOf(m).Some? {
      r := r.(sourceProperties := r.sourceProperties + [PropertyOf(m).value]);
    }
  }

  method AddMapping(env: Env, d: Draft, m: Mapping) returns (r: Draft)
    ensures r == Extended(env, d, m)
  {
    var values, family := ValuesOf(env, m), ClaimFamily(m);
    if IsCommon(family) {
      r := AddCommon(env, d, m, family, values, LoginsOf(env, m));
      CommonExtends(env, d, m);
      return;
    }
    r := d;
    if family.RawNameId? && values != [] {
      r := r.(matchValues := r.matchValues + values, email := r.email + LoginsOf(env, m));
      Regroup([], [], LoginsOf(env, m));
      if PropertyOf(m).Some? {
        r := r.(sourceProperties := r.sourceProperties + [PropertyOf(m).value]);
      }
    } else if m.id.Some? {
      var transient := family.Transient?;
      r := r.(claimValues := r.claimValues + [
        Claim(m.id.value, values, if transient then [] else values, if transient then values else [],
              !Resolvable(m) || values == [], PropertyOf(m))]);
    }
    assert r.incomplete == Extended(env, d, m).incomplete;
  }

  method SamlApplicationAssertionEvidence(env: Env, claimMappings: Option<seq<Mapping>>, fallback: Mapping)
    returns (e: Evidence)
    ensures e == AssertionEvidence(env, claimMappings, fallback)
  {
    var mappings := if claimMappings.None? then [fallback] else claimMappings.value;
    if claimMappings.Some? && mappings == [] {
      return NoEvidence;
    }
    var d := Draft([], [], [], [], [], [], [], {});
    for i := 0 to |mappings|
      invariant d == DraftOf(env, mappings[..i])
    {
      StepDrafts(env, mappings, i);
      d := AddMapping(env, d, mappings[i]);
    }
    assert mappings[..|mappings|] == mappings;
    return Evidence(
        Distinct(d.matchValues), Distinct(d.email), Distinct(d.upn), Distinct(d.objectId), Distinct(d.scoped),
        InOrder(COMMON_FIELDS, d.incomplete), Distinct(d.sourceProperties), d.claimValues);
  }

  lemma StepCollects(env: Env, ms: seq<Mapping>, i: nat)
    requires i < |ms|
    ensures forall kind :: Collect(env, ms[..i + 1], kind) == Collect(env, ms[..i], kind) + Part(env, ms[i], kind)
    ensures var c := ClaimOf(env, ms[i]);
            Claims(env, ms[..i + 1]) == Claims(env, ms[..i]) + (if c.Some? then [c.value] else [])
    ensures forall f :: SomeFalls(env, ms[..i + 1], f) <==> SomeFalls(env, ms[..i], f) || Falls(env, ms[i], f)
  {
    var init := ms[..i + 1];
    assert init[..i] == ms[..i] && init[i] == ms[i];
    forall f ensures SomeFalls(env, init, f) <==> SomeFalls(env, ms[..i], f) || Falls(env, ms[i], f) {
      if SomeFalls(env, ms[..i], f) {
        var k :| 0 <= k < i && Falls(env, ms[..i][k], f);
        assert init[k] == ms[k];
      }
      if SomeFalls(env, init, f) {
        var k :| 0 <= k < |init| && Falls(env, init[k], f);
        assert k < i ==> ms[..i][k] == init[k];
      }
    }
  }

  // ----- What the evidence means

  lemma {:induction false} CollectedIffPart(env: Env, ms: seq<Mapping>, kind: Kind, value: string)
    ensures value in Collect(env, ms, kind) <==> exists i :: 0 <= i < |ms| && value in Part(env, ms[i], kind)
  {
    if ms != [] {
      var n := |ms| - 1;
      CollectedIffPart(env, ms[..n], kind, value);
      assert forall i :: 0 <= i < n ==> ms[..n][i] == ms[i];
      InEither(Collect(env, ms[..n], kind), Part(env, ms[n], kind), value);
    }
  }

  lemma InEither(xs: seq<string>, ys: seq<string>, value: string)
    ensures value in xs + ys <==> value in xs || value in ys
  {
  }

  lemma {:induction false} ClaimedIffUnmatched(env: Env, ms: seq<Mapping>, c: Claim)
    ensures c in Claims(env, ms) <==> exists i :: 0 <= i < |ms| && ClaimOf(env, ms[i]) == Some(c)
  {
    if ms != [] {
      var n := |ms| - 1;
      ClaimedIffUnmatched(env, ms[..n], c);
      assert forall i :: 0 <= i < n ==> ms[..n][i] == ms[i];
      if ClaimOf(env, ms[n]) == Some(c) {
        assert c in Claims(env, ms);
      }
    }
  }

  lemma {:induction false} CanonicalsMissSome(env: Env, f: Family, values: seq<string>)
    ensures |Canonicals(env, f, values)| <= |values|
    ensures |Canonicals(env, f, values)| != |values| <==>
            exists k :: 0 <= k < |values| && Canonical(env, f, values[k]).None?
  {
    if values != [] {
      var n := |values| - 1;
      CanonicalsMissSome(env, f, values[..n]);
      assert forall k :: 0 <= k < n ==> values[..n][k] == values[k];
    }
  }

  /** A mapping of family `f` that cannot be resolved, has no value, or has one without a canonical form. */
  ghost predicate Lacking(env: Env, m: Mapping, f: Family) {
    && ClaimFamily(m) == f
    && (|| m.direct.None? || SourceConflict(m) || ValuesOf(env, m) == []
        || exists k :: 0 <= k < |ValuesOf(env, m)| && Canonical(env, f, ValuesOf(env, m)[k]).None?)
  }

  lemma FallsIffLacking(env: Env, m: Mapping, f: Family)
    ensures Falls(env, m, f) <==> Lacking(env, m, f)
  {
    CanonicalsMissSome(env, f, ValuesOf(env, m));
  }

  lemma {:induction false} InOrderKeepsMarked(fields: seq<Family>, marked: set<Family>, f: Family)
    ensures f in InOrder(fields, marked) <==> f in fields && f in marked
  {
    if fields != [] {
      InOrderKeepsMarked(fields[1..], marked, f);
    }
  }

  lemma CommonFieldsListed(f: Family)
    ensures f in COMMON_FIELDS <==> IsCommon(f)
  {
    assert COMMON_FIELDS[0] == Email && COMMON_FIELDS[1] == Upn && COMMON_FIELDS[2] == ObjectId && COMMON_FIELDS[3] == Scoped;
  }

  /**
   A match field is flagged incomplete exactly when some mapping of its family is
   lacking; with an explicitly empty mapping list, every field is.
   */
  lemma IncompleteExactly(env: Env, claimMappings: Option<seq<Mapping>>, fallback: Mapping, f: Family)
    requires IsCommon(f)
    ensures var ms := if claimMappings.None? then [fallback] else claimMappings.value;
            f in AssertionEvidence(env, claimMappings, fallback).incomplete <==>
              ms == [] || exists i :: 0 <= i < |ms| && Lacking(env, ms[i], f)
  {
    var ms := if claimMappings.None? then [fallback] else claimMappings.value;
    CommonFieldsListed(f);
    MarkedIffLacking(env, ms, f);
  }

  lemma MarkedIffLacking(env: Env, ms: seq<Mapping>, f: Family)
    requires f in COMMON_FIELDS
    ensures f in InOrder(COMMON_FIELDS, IncompleteSet(env, ms)) <==> exists i :: 0 <= i < |ms| && Lacking(env, ms[i], f)
  {
    InOrderKeepsMarked(COMMON_FIELDS, IncompleteSet(env, ms), f);
    forall i | 0 <= i < |ms| ensures Falls(env, ms[i], f) <==> Lacking(env, ms[i], f) {
      FallsIffLacking(env, ms[i], f);
    }
  }

  /**
   The match values are exactly the values of the mappings that feed them, each once;
   a transient NameID mapping feeds none of the lists.
   */
  lemma MatchValuesSound(env: Env, ms: seq<Mapping>, value: string)
    ensures var e := EvidenceOf(env, ms);
            && (value in e.matchValues <==>
                  exists i :: 0 <= i < |ms| && Matches(env, ms[i]) && value in ValuesOf(env, ms[i]))
            && NoDuplicates(e.matchValues)
            && NoDuplicates(e.email) && NoDuplicates(e.upn) && NoDuplicates(e.objectId) && NoDuplicates(e.scoped)
  {
    CollectedIffPart(env, ms, MatchValues, value);
    forall i | 0 <= i < |ms|
      ensures value in Part(env, ms[i], MatchValues) <==> Matches(env, ms[i]) && value in ValuesOf(env, ms[i])
    {
    }
  }

  function CommonList(e: Evidence, f: Family): seq<string>
    requires IsCommon(f)
  {
    match f
    case Email => e.email
    case Upn => e.upn
    case ObjectId => e.objectId
    case Scoped => e.scoped
  }

  /** The mapping asserts `value` in the list of family `f`. */
  ghost predicate Asserts(env: Env, m: Mapping, f: Family, value: string) {
    || (ClaimFamily(m) == f && value in Canonicals(env, f, ValuesOf(env, m)))
    || (f.Email? && Matches(env, m) && value in LoginsOf(env, m))
  }

  lemma PartOfCommon(env: Env, m: Mapping, f: Family, value: string)
    requires IsCommon(f)
    ensures value in Part(env, m, CommonValues(f)) <==> Asserts(env, m, f, value)
  {
  }

  lemma CommonListIsCollected(env: Env, ms: seq<Mapping>, f: Family, value: string)
    requires IsCommon(f)
    ensures value in CommonList(EvidenceOf(env, ms), f) <==> value in Collect(env, ms, CommonValues(f))
  {
  }

  /** Every value in a family's list is the canonical form of a value some mapping of that family asserts, or a login e-mail. */
  lemma CommonValuesSound(env: Env, ms: seq<Mapping>, f: Family, value: string)
    requires IsCommon(f)
    ensures value in CommonList(EvidenceOf(env, ms), f) <==>
              exists i :: 0 <= i < |ms| && Asserts(env, ms[i], f, value)
  {
    CommonListIsCollected(env, ms, f, value);
    CollectedIffPart(env, ms, CommonValues(f), value);
    forall i | 0 <= i < |ms|
      ensures value in Part(env, ms[i], CommonValues(f)) <==> Asserts(env, ms[i], f, value)
    {
      PartOfCommon(env, ms[i], f, value);
    }
  }

  /** A transient mapping that has an id and resolves to some value. */
  predicate OffersTransient(env: Env, m: Mapping) {
    ClaimFamily(m).Transient? && m.id.Some? && Resolvable(m) && env.values(m.direct.value) != []
  }

  /** A transient mapping adds to no list; its claim offers its values as unsafe only, and no other claim has unsafe values. */
  lemma TransientIsUnsafe(env: Env, ms: seq<Mapping>, i: nat, c: Claim)
    requires i < |ms|
    ensures ClaimFamily(ms[i]).Transient? ==> forall kind :: Part(env, ms[i], kind) == []
    ensures ClaimOf(env, ms[i]) == Some(c) ==>
              if ClaimFamily(ms[i]).Transient?
              then c.canonicalMatchValues == [] && c.unsafeMatchValues == c.matchValues == ValuesOf(env, ms[i])
              else c.unsafeMatchValues == [] && c.canonicalMatchValues == ValuesOf(env, ms[i])
    ensures ClaimFamily(ms[i]).Transient? ==>
              (OffersTransient(env, ms[i]) <==> ClaimOf(env, ms[i]).Some? && ClaimOf(env, ms[i]).value.matchValues != [])
    ensures c in Claims(env, ms) && c.unsafeMatchValues != [] ==>
              exists k :: 0 <= k < |ms| && ClaimFamily(ms[k]).Transient? && ClaimOf(env, ms[k]) == Some(c)
  {
    ClaimedIffUnmatched(env, ms, c);
  }

  /** An unsafe value is offered as a match value, too. */
  ghost predicate OffersUnsafe(c: Claim) {
    exists v :: v in c.unsafeMatchValues && v in c.matchValues
  }

  lemma ClaimOffersUnsafe(env: Env, m: Mapping)
    ensures OffersTransient(env, m) <==> ClaimOf(env, m).Some? && OffersUnsafe(ClaimOf(env, m).value)
  {
    if OffersTransient(env, m) {
      var c := ClaimOf(env, m).value;
      assert c.unsafeMatchValues[0] in c.unsafeMatchValues && c.unsafeMatchValues[0] in c.matchValues;
    }
  }

  /** Unsafe values appear among a claim's match values exactly if some transient mapping has an id and resolves to a value. */
  lemma TransientOfferedExactly(env: Env, ms: seq<Mapping>)
    ensures (exists c :: c in EvidenceOf(env, ms).claimValues && OffersUnsafe(c))
            <==> exists i :: 0 <= i < |ms| && OffersTransient(env, ms[i])
  {
    var claims := Claims(env, ms);
    if c :| c in claims && OffersUnsafe(c) {
      ClaimedIffUnmatched(env, ms, c);
      var i :| 0 <= i < |ms| && ClaimOf(env, ms[i]) == Some(c);
      ClaimOffersUnsafe(env, ms[i]);
    }
    if i :| 0 <= i < |ms| && OffersTransient(env, ms[i]) {
      ClaimOffersUnsafe(env, ms[i]);
      ClaimedIffUnmatched(env, ms, ClaimOf(env, ms[i]).value);
    }
  }

  const LOGIN := Field(SourceUser, LoginField, "user.login")

  /** A transient NameID taken from the user's login, the value "u": its claim lists the login as a match value, too. */
  lemma TransientOfferedExample() returns (env: Env, m: Mapping)
    ensures ClaimFamily(m).Transient?
    ensures AssertionEvidence(env, Some([m]), m).claimValues == [Claim("m", ["u"], [], ["u"], false, Some("user.login"))]
  {
    env := Env(_ => ["u"], x => x, x => x, _ => None, _ => None, true);
    m := Mapping(Some("m"), true, TransientFormat, false, OtherClaim, Some(LOGIN), Undeclared);
    assert ClaimOf(env, m) == Some(Claim("m", ["u"], [], ["u"], false, Some("user.login")));
    OneClaim(env, m, ClaimOf(env, m).value);
  }

  lemma OneClaim(env: Env, m: Mapping, c: Claim)
    requires ClaimOf(env, m) == Some(c)
    ensures EvidenceOf(env, [m]).claimValues == [c]
  {
    assert [m][..0] == [];
    assert Claims(env, [m]) == Claims(env, []) + [c];
  }

  /** Every mapping with an id leaves a trace: match values, a claim value under its id, or an incomplete flag. */
  lemma NoMappingVanishes(env: Env, ms: seq<Mapping>, i: nat)
    requires i < |ms| && ms[i].id.Some?
    ensures var e := EvidenceOf(env, ms);
            || (ValuesOf(env, ms[i]) != [] && forall v :: v in ValuesOf(env, ms[i]) ==> v in e.matchValues)
            || (exists c :: c in e.claimValues && c.mappingId == ms[i].id.value && ClaimOf(env, ms[i]) == Some(c))
            || ClaimFamily(ms[i]) in e.incomplete
  {
    var e := EvidenceOf(env, ms);
    if Matches(env, ms[i]) && ValuesOf(env, ms[i]) != [] {
      forall v | v in ValuesOf(env, ms[i]) ensures v in e.matchValues {
        MatchValuesSound(env, ms, v);
      }
    } else if Matches(env, ms[i]) {
      IncompleteExactly(env, Some(ms), ms[i], ClaimFamily(ms[i]));
      assert Lacking(env, ms[i], ClaimFamily(ms[i]));
    } else {
      var c := ClaimOf(env, ms[i]).value;
      ClaimedIffUnmatched(env, ms, c);
      assert c in e.claimValues;
    }
  }

  /** First-seen order: more items only ever add to the end of a deduplicated list. */
  lemma {:induction false} DistinctKeepsFirstSeen(xs: seq<string>, ys: seq<string>)
    ensures Distinct(xs) <= Distinct(xs + ys)
  {
    if ys == [] {
      assert xs + ys == xs;
    } else {
      var n := |ys| - 1;
      DistinctKeepsFirstSeen(xs, ys[..n]);
      assert (xs + ys)[..|xs| + n] == xs + ys[..n];
    }
  }
}
