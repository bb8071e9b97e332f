/** Which warning covers which, in terms of the two rows, for any table and for the business table. */
module BusinessErrorMeaning {
  import opened Text
  import opened BusinessErrorDependencies

  // ----- for any table

  /** The row names this value, stripped, for the key. */
  predicate Names(context: Context, key: string, value: string) {
    value != "" && key in context && Strip(context[key]) == value
  }

  predicate NamesNone(context: Context, key: string) {
    key !in context || Strip(context[key]) == ""
  }

  /** For the key, both rows name one value or both name none. */
  predicate NamesSame(a: Context, b: Context, key: string) {
    if NamesNone(a, key) then NamesNone(b, key) else Names(b, key, Strip(a[key]))
  }

  /** The key is a scope key of both codes. */
  predicate Shared(t: Catalog, a: string, d: string, key: string) {
    a in t.scopeKeys && key in t.scopeKeys[a] && d in t.scopeKeys && key in t.scopeKeys[d]
  }

  /** On the shared keys, one row names nothing, or the rows name the same. */
  ghost predicate ScopesAgree(t: Catalog, a: string, ca: Context, d: string, cd: Context) {
    || (forall key | Shared(t, a, d, key) :: NamesNone(ca, key))
    || (forall key | Shared(t, a, d, key) :: NamesNone(cd, key))
    || (forall key | Shared(t, a, d, key) :: NamesSame(ca, cd, key))
  }

  lemma {:induction false} CommonIs(keys: seq<string>, others: seq<string>, key: string)
    ensures key in Common(keys, others) <==> key in keys && key in others
  {
    if keys != [] { CommonIs(keys[1..], others, key); }
  }

  lemma SharedIs(t: Catalog, a: string, d: string, key: string)
    ensures key in SharedScopeKeys(t, a, d) <==> Shared(t, a, d, key)
  {
    CommonIs(ScopeKeys(t, a), ScopeKeys(t, d), key);
  }

  lemma ScopeIs(c: Context, keys: seq<string>)
    ensures HasScope(c, keys) <==> exists key | key in keys :: !NamesNone(c, key)
  {
    if HasScope(c, keys) {
      var k :| 0 <= k < |keys| && ScopeValue(c, keys[k]) != "";
      assert !NamesNone(c, keys[k]);
    }
    if key :| key in keys && !NamesNone(c, key) {
      var k :| 0 <= k < |keys| && keys[k] == key;
      assert ScopeValue(c, keys[k]) != "";
    }
  }

  lemma SameIs(a: Context, b: Context, keys: seq<string>)
    ensures SameScope(a, b, keys) <==> forall key | key in keys :: NamesSame(a, b, key)
  {
    forall key ensures ScopeValue(a, key) == ScopeValue(b, key) <==> NamesSame(a, b, key) {
    }
    if SameScope(a, b, keys) {
      forall key | key in keys ensures NamesSame(a, b, key) {
        var k :| 0 <= k < |keys| && keys[k] == key;
        assert ScopeValue(a, keys[k]) == ScopeValue(b, keys[k]);
      }
    }
  }

  lemma ScopesMatchIff(t: Catalog, a: string, ca: Context, d: string, cd: Context)
    ensures ScopesMatch(t, a, ca, d, cd) <==> ScopesAgree(t, a, ca, d, cd)
  {
    var keys := SharedScopeKeys(t, a, d);
    forall key ensures key in keys <==> Shared(t, a, d, key) { SharedIs(t, a, d, key); }
    ScopeIs(ca, keys);
    ScopeIs(cd, keys);
    SameIs(ca, cd, keys);
    assert forall k | 0 <= k < |keys| :: keys[k] in keys;
  }

  /** For any table: a row covers another exactly when its code lists the other's and their scopes agree. */
  lemma CoversIff(t: Catalog, a: Warning, d: Warning)
    ensures Covers(t, a, d)
       <==> && Strip(a.code) != "" && Strip(d.code) != ""
            && Strip(a.code) in t.dependents && Strip(d.code) in t.dependents[Strip(a.code)]
            && ScopesAgree(t, Strip(a.code), a.context, Strip(d.code), d.context)
  {
    ScopesMatchIff(t, Strip(a.code), a.context, Strip(d.code), d.context);
  }

  // ----- in the business table

  /** One of the rows names no delivery, or both name the same. */
  predicate OneDelivery(a: Context, d: Context) {
    NamesNone(a, "del_code") || NamesNone(d, "del_code") || NamesSame(a, d, "del_code")
  }

  /** One of the rows names neither pack code nor product, or the rows agree on both. */
  predicate OnePack(a: Context, d: Context) {
    || (NamesNone(a, "pack_code") && NamesNone(a, "tender_product_id"))
    || (NamesNone(d, "pack_code") && NamesNone(d, "tender_product_id"))
    || (NamesSame(a, d, "pack_code") && NamesSame(a, d, "tender_product_id"))
  }

  predicate IsGap(code: string) {
    code == "missing_qty_per_unit" || code == "missing_total_qty" || code == "missing_unit_dims"
  }

  /** In the business table, `a` is a root cause that covers `d`. */
  predicate BusinessCovers(a: Warning, d: Warning) {
    || (Strip(a.code) == "missing_delivery_address" && Strip(d.code) == "missing_customer_name" && OneDelivery(a.context, d.context))
    || (Strip(a.code) == "missing_pack_code" && IsGap(Strip(d.code)) && OnePack(a.context, d.context))
  }

  /** The keys shared by two codes of the table. */
  lemma BusinessShared(a: string, d: string, key: string)
    ensures a == "missing_delivery_address" && d == "missing_customer_name" ==>
              (Shared(BusinessCatalog(), a, d, key) <==> key == "del_code")
    ensures a == "missing_pack_code" && IsGap(d) ==>
              (Shared(BusinessCatalog(), a, d, key) <==> key == "pack_code" || key == "tender_product_id")
  {
    CodesDiffer();
    var t := BusinessCatalog();
    if a == "missing_delivery_address" && d == "missing_customer_name" {
      assert t.scopeKeys[a] == ["del_code"] && t.scopeKeys[d] == ["del_code"];
    }
    if a == "missing_pack_code" && IsGap(d) {
      assert t.scopeKeys[a] == ["pack_code", "tender_product_id"] && t.scopeKeys[d] == ["pack_code", "tender_product_id"];
    }
  }

  lemma BusinessScopes(a: string, ca: Context, d: string, cd: Context)
    ensures a == "missing_delivery_address" && d == "missing_customer_name" ==>
              (ScopesAgree(BusinessCatalog(), a, ca, d, cd) <==> OneDelivery(ca, cd))
    ensures a == "missing_pack_code" && IsGap(d) ==> (ScopesAgree(BusinessCatalog(), a, ca, d, cd) <==> OnePack(ca, cd))
  {
    var t := BusinessCatalog();
    forall key
      ensures a == "missing_delivery_address" && d == "missing_customer_name" ==> (Shared(t, a, d, key) <==> key == "del_code")
      ensures a == "missing_pack_code" && IsGap(d) ==> (Shared(t, a, d, key) <==> key == "pack_code" || key == "tender_product_id")
    {
      BusinessShared(a, d, key);
    }
  }

  lemma BusinessCauses(a: string, d: string)
    ensures a in BusinessCatalog().dependents && d in BusinessCatalog().dependents[a]
       <==> (a == "missing_delivery_address" && d == "missing_customer_name") || (a == "missing_pack_code" && IsGap(d))
  {
    CodesDiffer();
  }

  /**
   In the business table: a missing delivery address covers the missing customer name of one
   delivery, a missing pack code the three profile gaps of one pack, and nothing else covers
   anything.
   */
  lemma BusinessCoversIff(a: Warning, d: Warning)
    ensures Covers(BusinessCatalog(), a, d) <==> BusinessCovers(a, d)
  {
    CoversIff(BusinessCatalog(), a, d);
    BusinessCauses(Strip(a.code), Strip(d.code));
    BusinessScopes(Strip(a.code), a.context, Strip(d.code), d.context);
  }
}
