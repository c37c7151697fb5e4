/**
 The evidence of an assignment, told in one table: which mapping reaches which list,
 in which form, and what is missing. Nothing here is told mapping by mapping.
 */
module SamlEvidenceLaws {
  import opened Basics
  import opened SamlEvidence

  /** The mapping's expression is a profile field that no declared source contradicts, and the field has the value. */
  ghost predicate Resolved(env: Env, m: Mapping, v: string) {
    && m.direct.Some? && (m.declared.Undeclared? || m.declared.field == m.direct)
    && v in env.values(m.direct.value)
  }

  /** The table of destinations: attributes by their name, NameIDs by format, origin and field. */
  predicate Destined(m: Mapping, f: Family) {
    match f
    case Email =>
      || (!m.isNameId && m.claimName.EmailClaim?)
      || (m.isNameId && m.format.EmailFormat?)
      || (m.isNameId && m.format.OtherFormat? && !m.fromUserName && m.direct.Some? && m.direct.value.kind.MailField?)
    case Upn =>
      || (!m.isNameId && m.claimName.UpnClaim?)
      || (m.isNameId && m.format.OtherFormat? && !m.fromUserName && m.direct.Some? && m.direct.value.kind.PrincipalField?)
    case ObjectId => !m.isNameId && m.claimName.ObjectIdClaim?
    case Scoped => m.isNameId && (m.format.PersistentFormat? || (m.format.OtherFormat? && m.fromUserName))
    case Transient => m.isNameId && m.format.TransientFormat?
    case Exceptional => !m.isNameId && m.claimName.OtherClaim?
    case RawNameId =>
      && m.isNameId && m.format.OtherFormat? && !m.fromUserName
      && (m.direct.Some? ==> m.direct.value.kind.LoginField? || m.direct.value.kind.PlainField?)
  }

  /** The form in which a list holds a value: folded, an identifier, or only stripped. */
  predicate HasForm(env: Env, f: Family, v: string, value: string)
    requires IsCommon(f)
  {
    match f
    case Email => value == env.casefold(env.strip(v))
    case Upn => value == env.casefold(env.strip(v))
    case ObjectId => env.uuid(env.strip(v)) == Some(value)
    case Scoped => value == env.strip(v)
  }

  lemma FamilyIsDestination(m: Mapping, f: Family)
    ensures ClaimFamily(m) == f <==> Destined(m, f)
  {
  }

  lemma ResolvedIsValue(env: Env, m: Mapping, v: string)
    ensures Resolved(env, m, v) <==> v in ValuesOf(env, m)
  {
  }

  lemma {:induction false} CanonicalsHaveForm(env: Env, f: Family, values: seq<string>, value: string)
    requires IsCommon(f)
    ensures value in Canonicals(env, f, values) <==> exists k :: 0 <= k < |values| && HasForm(env, f, values[k], value)
  {
    if values != [] {
      var n := |values| - 1;
      CanonicalsHaveForm(env, f, values[..n], value);
      assert forall k :: 0 <= k < n ==> values[..n][k] == values[k];
      var last := Canonical(env, f, values[n]);
      InEither(Canonicals(env, f, values[..n]), if last.Some? then [last.value] else [], value);
    }
  }

  lemma {:induction false} LoginsAreEmails(env: Env, values: seq<string>, value: string)
    ensures value in LoginEmails(env, values) <==> exists k :: 0 <= k < |values| && env.loginEmail(values[k]) == Some(value)
  {
    if values != [] {
      var n := |values| - 1;
      LoginsAreEmails(env, values[..n], value);
      assert forall k :: 0 <= k < n ==> values[..n][k] == values[k];
      var last := env.loginEmail(values[n]);
      InEither(LoginEmails(env, values[..n]), if last.Some? then [last.value] else [], value);
    }
  }

  /** The login of the source user, asserted as a NameID that is not transient, is an e-mail of this form. */
  ghost predicate IsLoginEmail(env: Env, m: Mapping, v: string, value: string) {
    && m.isNameId && !m.format.TransientFormat? && env.sourceProfileKnown
    && m.direct.Some? && m.direct.value.namespace.SourceUser? && m.direct.value.kind.LoginField?
    && env.loginEmail(v) == Some(value)
  }

  /** The mapping puts `value` into the list of `f`, from the profile value `v`. */
  ghost predicate Puts(env: Env, m: Mapping, f: Family, v: string, value: string)
    requires IsCommon(f)
  {
    && Resolved(env, m, v)
    && ((Destined(m, f) && HasForm(env, f, v, value)) || (f.Email? && IsLoginEmail(env, m, v, value)))
  }

  lemma CanonicalPart(env: Env, m: Mapping, f: Family, value: string)
    requires IsCommon(f)
    ensures value in Canonicals(env, f, ValuesOf(env, m)) <==> exists v :: Resolved(env, m, v) && HasForm(env, f, v, value)
  {
    var values := ValuesOf(env, m);
    CanonicalsHaveForm(env, f, values, value);
    if k :| 0 <= k < |values| && HasForm(env, f, values[k], value) {
      ResolvedIsValue(env, m, values[k]);
    }
    if v :| Resolved(env, m, v) && HasForm(env, f, v, value) {
      ResolvedIsValue(env, m, v);
    }
  }

  lemma LoginPart(env: Env, m: Mapping, value: string)
    ensures Matches(env, m) && value in LoginsOf(env, m) <==>
            exists v :: Resolved(env, m, v) && IsLoginEmail(env, m, v, value)
  {
    var values := ValuesOf(env, m);
    LoginsAreEmails(env, values, value);
    FamilyIsDestination(m, ClaimFamily(m));
    if Matches(env, m) && value in LoginsOf(env, m) {
      var k :| 0 <= k < |values| && env.loginEmail(values[k]) == Some(value);
      ResolvedIsValue(env, m, values[k]);
      assert IsLoginEmail(env, m, values[k], value);
    }
    if v :| Resolved(env, m, v) && IsLoginEmail(env, m, v, value) {
      ResolvedIsValue(env, m, v);
    }
  }

  lemma AssertsIffPuts(env: Env, m: Mapping, f: Family, value: string)
    requires IsCommon(f)
    ensures Asserts(env, m, f, value) <==> exists v :: Puts(env, m, f, v, value)
  {
    FamilyIsDestination(m, f);
    CanonicalPart(env, m, f, value);
    LoginPart(env, m, value);
    if Destined(m, f) {
      if v :| Resolved(env, m, v) && HasForm(env, f, v, value) {
        assert Puts(env, m, f, v, value);
      }
    }
    if f.Email? {
      if v :| Resolved(env, m, v) && IsLoginEmail(env, m, v, value) {
        assert Puts(env, m, f, v, value);
      }
    }
  }

  ghost predicate SomePuts(env: Env, m: Mapping, f: Family, value: string)
    requires IsCommon(f)
  {
    exists v :: Puts(env, m, f, v, value)
  }

  /**
   Every emitted list holds exactly the values that some mapping destined for it
   resolves to, in the list's form; and the e-mail list the login e-mails, too.
   */
  lemma ListsHoldExactly(env: Env, ms: seq<Mapping>, f: Family, value: string)
    requires IsCommon(f)
    ensures value in CommonList(EvidenceOf(env, ms), f) <==> exists i :: 0 <= i < |ms| && SomePuts(env, ms[i], f, value)
  {
    CommonValuesSound(env, ms, f, value);
    forall i | 0 <= i < |ms| ensures Asserts(env, ms[i], f, value) <==> SomePuts(env, ms[i], f, value) {
      AssertsIffPuts(env, ms[i], f, value);
    }
  }

  /** Transient NameIDs and attributes without a known name feed no list of the evidence. */
  predicate Feeds(m: Mapping) {
    if m.isNameId then !m.format.TransientFormat? else !m.claimName.OtherClaim?
  }

  lemma MatchesIffFeeds(env: Env, m: Mapping, v: string)
    requires Resolved(env, m, v)
    ensures Matches(env, m) <==> Feeds(m)
  {
    ResolvedIsValue(env, m, v);
  }

  /** The match values are exactly what the feeding mappings resolve to. */
  lemma MatchValuesExactly(env: Env, ms: seq<Mapping>, v: string)
    ensures v in EvidenceOf(env, ms).matchValues <==> exists i :: 0 <= i < |ms| && Feeds(ms[i]) && Resolved(env, ms[i], v)
  {
    MatchValuesSound(env, ms, v);
    forall i | 0 <= i < |ms|
      ensures Matches(env, ms[i]) && v in ValuesOf(env, ms[i]) <==> Feeds(ms[i]) && Resolved(env, ms[i], v)
    {
      ResolvedIsValue(env, ms[i], v);
      if Resolved(env, ms[i], v) {
        MatchesIffFeeds(env, ms[i], v);
      }
    }
  }

  /** The mapping feeds a list with some value of the profile field named `property`. */
  ghost predicate Names(env: Env, m: Mapping, property: string) {
    Feeds(m) && m.direct.Some? && m.direct.value.property == property && exists v :: Resolved(env, m, v)
  }

  lemma NamesIffPart(env: Env, m: Mapping, property: string)
    ensures property in Part(env, m, SourceProperties) <==> Names(env, m, property)
  {
    var values := ValuesOf(env, m);
    if values != [] {
      ResolvedIsValue(env, m, values[0]);
      MatchesIffFeeds(env, m, values[0]);
    }
    if v :| Resolved(env, m, v) {
      ResolvedIsValue(env, m, v);
    }
  }

  /** The source properties are exactly those of the feeding mappings that resolve to some value. */
  lemma SourcePropertiesExactly(env: Env, ms: seq<Mapping>, property: string)
    ensures property in EvidenceOf(env, ms).sourceProperties <==> exists i :: 0 <= i < |ms| && Names(env, ms[i], property)
  {
    CollectedIffPart(env, ms, SourceProperties, property);
    forall i | 0 <= i < |ms|
      ensures property in Part(env, ms[i], SourceProperties) <==> Names(env, ms[i], property)
    {
      NamesIffPart(env, ms[i], property);
    }
  }

  ghost predicate Formless(env: Env, f: Family, v: string)
    requires IsCommon(f)
  {
    forall value :: !HasForm(env, f, v, value)
  }

  /** The mapping is destined for the list but resolves to nothing, or to a value without the list's form. */
  ghost predicate Lacks(env: Env, m: Mapping, f: Family)
    requires IsCommon(f)
  {
    Destined(m, f) && ((forall v :: !Resolved(env, m, v)) || exists v :: Resolved(env, m, v) && Formless(env, f, v))
  }

  lemma FormlessIffNoCanonical(env: Env, f: Family, v: string)
    requires IsCommon(f)
    ensures Canonical(env, f, v).None? <==> Formless(env, f, v)
  {
    if Canonical(env, f, v).Some? {
      assert HasForm(env, f, v, Canonical(env, f, v).value);
    }
  }

  lemma LacksIffLacking(env: Env, m: Mapping, f: Family)
    requires IsCommon(f)
    ensures Lacks(env, m, f) <==> Lacking(env, m, f)
  {
    FamilyIsDestination(m, f);
    var values := ValuesOf(env, m);
    forall v ensures Resolved(env, m, v) <==> v in values {
      ResolvedIsValue(env, m, v);
    }
    if v :| Resolved(env, m, v) && Formless(env, f, v) {
      FormlessIffNoCanonical(env, f, v);
      var k :| 0 <= k < |values| && values[k] == v;
      assert Canonical(env, f, values[k]).None?;
    }
    if k :| 0 <= k < |values| && Canonical(env, f, values[k]).None? {
      FormlessIffNoCanonical(env, f, values[k]);
      assert Resolved(env, m, values[k]);
    }
    if values != [] {
      assert Resolved(env, m, values[0]);
    }
  }

  /** A list is flagged incomplete exactly if some mapping destined for it lacks, or the mappings are explicitly empty. */
  lemma FlaggedExactly(env: Env, claimMappings: Option<seq<Mapping>>, fallback: Mapping, f: Family)
    requires IsCommon(f)
    ensures var ms := if claimMappings.None? then [fallback] else claimMappings.value;
            f in AssertionEvidence(env, claimMappings, fallback).incomplete <==>
              ms == [] || exists i :: 0 <= i < |ms| && Lacks(env, ms[i], f)
  {
    var ms := if claimMappings.None? then [fallback] else claimMappings.value;
    IncompleteExactly(env, claimMappings, fallback, f);
    forall i | 0 <= i < |ms| ensures Lacks(env, ms[i], f) <==> Lacking(env, ms[i], f) {
      LacksIffLacking(env, ms[i], f);
    }
  }

  /** A claim value is emitted exactly for each mapping with an id that feeds no list or resolves to nothing there. */
  lemma ClaimsExactly(env: Env, ms: seq<Mapping>, c: Claim)
    ensures c in EvidenceOf(env, ms).claimValues <==>
            exists i :: 0 <= i < |ms| && ClaimFor(env, ms[i], c)
  {
    ClaimedIffUnmatched(env, ms, c);
    forall i | 0 <= i < |ms| ensures ClaimOf(env, ms[i]) == Some(c) <==> ClaimFor(env, ms[i], c) {
      ClaimForExactly(env, ms[i], c);
    }
  }

  /** The claim value of a mapping, field by field. */
  ghost predicate ClaimFor(env: Env, m: Mapping, c: Claim) {
    && m.id == Some(c.mappingId)
    && (!Feeds(m) || (Destined(m, RawNameId) && forall v :: !Resolved(env, m, v)))
    && (if Destined(m, Transient)
        then c.canonicalMatchValues == [] && c.unsafeMatchValues == c.matchValues
        else c.canonicalMatchValues == c.matchValues && c.unsafeMatchValues == [])
    && (forall v :: v in c.matchValues <==> Resolved(env, m, v))
    && c.matchValues == ValuesOf(env, m)
    && (c.incomplete <==> forall v :: !Resolved(env, m, v))
    && c.sourceProperty == if m.direct.Some? then Some(m.direct.value.property) else None
  }

  lemma ClaimForExactly(env: Env, m: Mapping, c: Claim)
    ensures ClaimOf(env, m) == Some(c) <==> ClaimFor(env, m, c)
  {
    var values := ValuesOf(env, m);
    forall v ensures Resolved(env, m, v) <==> v in values {
      ResolvedIsValue(env, m, v);
    }
    FamilyIsDestination(m, Transient);
    FamilyIsDestination(m, RawNameId);
    if values != [] {
      assert Resolved(env, m, values[0]);
    }
  }

  lemma {:induction false} CollectGrows(env: Env, ms: seq<Mapping>, n: nat, kind: Kind)
    requires n <= |ms|
    ensures Collect(env, ms[..n], kind) <= Collect(env, ms, kind)
  {
    if n == |ms| {
      assert ms[..n] == ms;
    } else {
      var init := ms[..|ms| - 1];
      CollectGrows(env, init, n, kind);
      assert init[..n] == ms[..n];
    }
  }

  lemma DistinctGrows(xs: seq<string>, ys: seq<string>)
    requires xs <= ys
    ensures Distinct(xs) <= Distinct(ys)
  {
    DistinctKeepsFirstSeen(xs, ys[|xs|..]);
    assert xs + ys[|xs|..] == ys;
  }

  /** First-seen order: later mappings only ever add values at the end of a list. */
  lemma ListsGrow(env: Env, ms: seq<Mapping>, n: nat, f: Family)
    requires n <= |ms| && IsCommon(f)
    ensures var d, e := EvidenceOf(env, ms[..n]), EvidenceOf(env, ms);
            && d.matchValues <= e.matchValues && d.sourceProperties <= e.sourceProperties
            && CommonList(d, f) <= CommonList(e, f)
  {
    CollectGrows(env, ms, n, MatchValues);
    CollectGrows(env, ms, n, SourceProperties);
    CollectGrows(env, ms, n, CommonValues(f));
    DistinctGrows(Collect(env, ms[..n], MatchValues), Collect(env, ms, MatchValues));
    DistinctGrows(Collect(env, ms[..n], SourceProperties), Collect(env, ms, SourceProperties));
    DistinctGrows(Collect(env, ms[..n], CommonValues(f)), Collect(env, ms, CommonValues(f)));
  }
}
