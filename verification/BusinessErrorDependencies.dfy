/** Which business errors are consequences of which (app/domain/business_error_dependencies.py). */
module BusinessErrorDependencies {
  import opened Text

  type Context = map<string, string>

  /** A warning row; a missing or non-dictionary context is the empty map. */
  datatype Warning = Warning(code: string, message: string, context: Context)

  /** `BUSINESS_ERROR_DEPENDENCIES`, `ERROR_SCOPE_KEYS` and the catalog profile codes. */
  datatype Catalog = Catalog(dependents: map<string, set<string>>, scopeKeys: map<string, seq<string>>, profileCodes: set<string>)

  const PROFILE_CODES: set<string> := {"missing_qty_per_unit", "missing_total_qty", "missing_unit_dims"}

  function BusinessCatalog(): Catalog {
    Catalog(
      map["missing_delivery_address" := {"missing_customer_name"}, "missing_pack_code" := PROFILE_CODES],
      map["missing_delivery_address" := ["del_code"],
          "missing_customer_name" := ["del_code"],
          "missing_pack_code" := ["pack_code", "tender_product_id"],
          "missing_qty_per_unit" := ["pack_code", "tender_product_id"],
          "missing_total_qty" := ["pack_code", "tender_product_id"],
          "missing_unit_dims" := ["pack_code", "tender_product_id"]],
      PROFILE_CODES)
  }

  function WarningCode(w: Warning): string {
    Strip(w.code)
  }

  function ScopeKeys(t: Catalog, code: string): seq<string> {
    if code in t.scopeKeys then t.scopeKeys[code] else []
  }

  function SharedScopeKeys(t: Catalog, ancestor: string, dependent: string): seq<string> {
    Common(ScopeKeys(t, ancestor), ScopeKeys(t, dependent))
  }

  function Common(keys: seq<string>, others: seq<string>): seq<string> {
    if keys == [] then []
    else (if keys[0] in others then [keys[0]] else []) + Common(keys[1..], others)
  }

  function ScopeValue(context: Context, key: string): string {
    if key in context then Strip(context[key]) else ""
  }

  predicate HasScope(context: Context, keys: seq<string>) {
    exists k | 0 <= k < |keys| :: ScopeValue(context, keys[k]) != ""
  }

  predicate SameScope(a: Context, b: Context, keys: seq<string>) {
    forall k | 0 <= k < |keys| :: ScopeValue(a, keys[k]) == ScopeValue(b, keys[k])
  }

  predicate ScopesMatch(t: Catalog, ancestor: string, ancestorContext: Context, dependent: string, dependentContext: Context) {
    var keys := SharedScopeKeys(t, ancestor, dependent);
    keys == [] || !HasScope(ancestorContext, keys) || !HasScope(dependentContext, keys) || SameScope(ancestorContext, dependentContext, keys)
  }

  predicate IsSuppressedByAncestor(t: Catalog, ancestor: string, ancestorContext: Context, dependent: string, dependentContext: Context) {
    && ancestor in t.dependents && dependent in t.dependents[ancestor]
    && ScopesMatch(t, ancestor, ancestorContext, dependent, dependentContext)
  }

  /** Row `a` is a root cause that covers row `d`. */
  predicate Covers(t: Catalog, a: Warning, d: Warning) {
    && WarningCode(d) != "" && WarningCode(a) != ""
    && IsSuppressedByAncestor(t, WarningCode(a), a.context, WarningCode(d), d.context)
  }

  predicate CoveredByAny(t: Catalog, warnings: seq<Warning>, d: Warning) {
    exists k | 0 <= k < |warnings| :: Covers(t, warnings[k], d)
  }

  method IsSuppressedByWarnings(t: Catalog, warnings: seq<Warning>, d: Warning) returns (r: bool)
    ensures r <==> CoveredByAny(t, warnings, d)
  {
    if WarningCode(d) == "" { return false; }
    for k := 0 to |warnings|
      invariant forall j | 0 <= j < k :: !Covers(t, warnings[j], d)
    {
      if Covers(t, warnings[k], d) { return true; }
    }
    return false;
  }

  // ----- the table is one level deep

  predicate Caused(t: Catalog, code: string) {
    exists a | a in t.dependents :: code in t.dependents[a]
  }

  /** The row's code is a consequence of some other code. */
  predicate IsDependent(t: Catalog, w: Warning) {
    Caused(t, WarningCode(w))
  }

  /** No consequence is itself a cause, and profile gaps are consequences with trimmed codes. */
  predicate OneLevel(t: Catalog) {
    && (forall a, d | a in t.dependents && d in t.dependents[a] :: d !in t.dependents)
    && (forall code | code in t.profileCodes :: Caused(t, code) && Trimmed(code))
  }

  lemma CatalogIsOneLevel()
    ensures OneLevel(BusinessCatalog())
  {
    var t := BusinessCatalog();
    CodesDiffer();
    forall code | code in t.profileCodes ensures Caused(t, code) && Trimmed(code) {
      assert code in t.dependents["missing_pack_code"];
    }
  }

  lemma CodesDiffer()
    ensures "missing_delivery_address" != "missing_customer_name"
    ensures {"missing_delivery_address", "missing_pack_code"} !! PROFILE_CODES
    ensures "missing_pack_code" != "missing_customer_name" && "missing_customer_name" !in PROFILE_CODES
  {
    var c := 'c';
    assert "missing_delivery_address"[8] == 'd' && "missing_pack_code"[8] == 'p' && "missing_customer_name"[8] == c;
    assert "missing_qty_per_unit"[8] == 'q' && "missing_total_qty"[8] == 't' && "missing_unit_dims"[8] == 'u';
  }

  /** Covering is one level deep: what is covered is a dependent, and what covers is never one. */
  lemma CoveringIsOneLevel(t: Catalog, a: Warning, d: Warning)
    requires OneLevel(t) && Covers(t, a, d)
    ensures IsDependent(t, d) && !IsDependent(t, a)
  {
  }

  lemma {:induction false} CommonWithItself(keys: seq<string>, others: seq<string>)
    requires forall k | 0 <= k < |keys| :: keys[k] in others
    ensures Common(keys, others) == keys
  {
    if keys != [] {
      assert keys[0] in others;
      CommonWithItself(keys[1..], others);
    }
  }

  const PACK_SCOPE: seq<string> := ["pack_code", "tender_product_id"]

  /** A missing pack code covers a profile gap unless both rows name a scope and the scopes differ. */
  lemma PackCodeCoversIff(a: Warning, d: Warning)
    requires WarningCode(a) == "missing_pack_code" && WarningCode(d) in PROFILE_CODES
    ensures Covers(BusinessCatalog(), a, d)
       <==> (HasScope(a.context, PACK_SCOPE) && HasScope(d.context, PACK_SCOPE) ==> SameScope(a.context, d.context, PACK_SCOPE))
  {
    CodesDiffer();
    CommonWithItself(PACK_SCOPE, PACK_SCOPE);
    assert ScopeKeys(BusinessCatalog(), WarningCode(a)) == PACK_SCOPE;
    assert ScopeKeys(BusinessCatalog(), WarningCode(d)) == PACK_SCOPE;
  }
}
