/** Reducing warnings never loses a root cause, and appended lists stay free of repeats. */
module TenderBusinessWarningsProperties {
  import opened Wrappers
  import opened Text
  import opened BusinessErrorDependencies
  import opened TenderBusinessWarnings

  /** Covering is one level deep, and neither keys nor causes depend on what slimming drops. */
  ghost predicate Sound(r: Rules) {
    && (forall a, d :: r.covers(a, d) ==> r.dependent(d) && !r.dependent(a))
    && (forall w :: r.key(w).Some? ==> r.dependent(w))
    && (forall w :: r.newKey(w) == if Trimmed(w.code) then r.key(w) else None)
    && (forall w :: r.key(Slim(r, w)) == r.key(w) && r.dependent(Slim(r, w)) == r.dependent(w))
    && (forall w :: Slim(r, Slim(r, w)) == Slim(r, w))
  }

  lemma CatalogRulesAreSound()
    ensures Sound(RulesOf(BusinessCatalog()))
  {
    CatalogIsOneLevel();
    RulesAreSound(BusinessCatalog());
  }

  lemma RulesAreSound(t: Catalog)
    requires OneLevel(t)
    ensures Sound(RulesOf(t))
  {
    var r := RulesOf(t);
    forall a, d | r.covers(a, d) ensures r.dependent(d) && !r.dependent(a) {
      CoveringIsOneLevel(t, a, d);
    }
    forall w ensures r.newKey(w) == if Trimmed(w.code) then r.key(w) else None {
      StripTrims(w.code);
    }
  }

  // ----- the filter, row by row

  /** Row `i` stays: no row covers it, and no earlier uncovered row has its profile key. */
  predicate Survives(r: Rules, warnings: seq<Warning>, i: nat)
    requires i < |warnings|
  {
    && !CoveredByOther(r, warnings, i)
    && (r.key(warnings[i]).Some? ==> !KeySeen(r, warnings, i, r.key(warnings[i]).value))
  }

  predicate KeySeen(r: Rules, warnings: seq<Warning>, n: nat, key: ProfileKey)
    requires n <= |warnings|
  {
    exists j | 0 <= j < n :: !CoveredByOther(r, warnings, j) && r.key(warnings[j]) == Some(key)
  }

  /** The rows among the first `n` that stay, each reduced to its pack code when it has a profile key. */
  function Survivors(r: Rules, warnings: seq<Warning>, n: nat): seq<Warning>
    requires n <= |warnings|
  {
    if n == 0 then []
    else Survivors(r, warnings, n - 1) + (if Survives(r, warnings, n - 1) then [Slim(r, warnings[n - 1])] else [])
  }

  lemma SurvivorsStep(r: Rules, warnings: seq<Warning>, n: nat)
    requires n < |warnings|
    ensures Survivors(r, warnings, n + 1)
         == if Survives(r, warnings, n) then Survivors(r, warnings, n) + [Slim(r, warnings[n])] else Survivors(r, warnings, n)
  {
  }

  lemma {:induction false} CollapsePrefix(r: Rules, rows: seq<Warning>, longer: seq<Warning>, n: nat)
    requires n <= |rows| && rows <= longer
    ensures Collapse(r, longer, n) == Collapse(r, rows, n)
  {
    if n > 0 { CollapsePrefix(r, rows, longer, n - 1); }
  }

  ghost predicate SeenAre(r: Rules, warnings: seq<Warning>, n: nat, seen: set<ProfileKey>)
    requires n <= |warnings|
  {
    forall key :: key in seen <==> KeySeen(r, warnings, n, key)
  }

  lemma KeySeenStep(r: Rules, warnings: seq<Warning>, n: nat, key: ProfileKey)
    requires n < |warnings|
    ensures KeySeen(r, warnings, n + 1, key)
       <==> KeySeen(r, warnings, n, key) || (!CoveredByOther(r, warnings, n) && r.key(warnings[n]) == Some(key))
  {
  }

  lemma CollapseStep(r: Rules, before: seq<Warning>, w: Warning)
    ensures Collapse(r, before + [w], |before| + 1) == CollapseRow(r, Collapse(r, before, |before|), w)
  {
    var kept := before + [w];
    assert kept[|before|] == w;
    CollapsePrefix(r, before, kept, |before|);
  }

  lemma SeenStep(r: Rules, warnings: seq<Warning>, n: nat, before: Collapsed)
    requires n < |warnings| && SeenAre(r, warnings, n, before.seen) && before.out == Survivors(r, warnings, n)
    ensures var after := if CoveredByOther(r, warnings, n) then before else CollapseRow(r, before, warnings[n]);
            SeenAre(r, warnings, n + 1, after.seen) && after.out == Survivors(r, warnings, n + 1)
  {
    forall key ensures KeySeen(r, warnings, n + 1, key)
      <==> KeySeen(r, warnings, n, key) || (!CoveredByOther(r, warnings, n) && r.key(warnings[n]) == Some(key))
    {
      KeySeenStep(r, warnings, n, key);
    }
    SlimWithoutKey(r, warnings[n]);
  }

  lemma SlimWithoutKey(r: Rules, w: Warning)
    ensures r.key(w).None? ==> Slim(r, w) == w
  {
  }

  lemma {:induction false} CollapseIsSurvivors(r: Rules, warnings: seq<Warning>, n: nat)
    requires n <= |warnings|
    ensures var kept := Uncovered(r, warnings, n);
            var collapsed := Collapse(r, kept, |kept|);
            collapsed.out == Survivors(r, warnings, n) && SeenAre(r, warnings, n, collapsed.seen)
  {
    if n > 0 {
      var k := n - 1;
      CollapseIsSurvivors(r, warnings, k);
      var before := Uncovered(r, warnings, k);
      SeenStep(r, warnings, k, Collapse(r, before, |before|));
      UncoveredStep(r, warnings, k);
      CollapseStep(r, before, warnings[k]);
    }
  }

  /** The filter keeps, in order, exactly the rows that survive. */
  lemma FilterIsSurvivors(r: Rules, warnings: seq<Warning>)
    ensures Filtered(r, warnings) == Survivors(r, warnings, |warnings|)
  {
    CollapseIsSurvivors(r, warnings, |warnings|);
  }

  // ----- root causes are never lost

  /** The rows among the first `n` whose code is no consequence of another. */
  function Roots(r: Rules, warnings: seq<Warning>, n: nat): seq<Warning>
    requires n <= |warnings|
  {
    if n == 0 then []
    else Roots(r, warnings, n - 1) + (if r.dependent(warnings[n - 1]) then [] else [warnings[n - 1]])
  }

  lemma {:induction false} RootsPrefix(r: Rules, rows: seq<Warning>, longer: seq<Warning>, n: nat)
    requires n <= |rows| && rows <= longer
    ensures Roots(r, longer, n) == Roots(r, rows, n)
  {
    if n > 0 { RootsPrefix(r, rows, longer, n - 1); }
  }

  lemma RootSurvives(r: Rules, warnings: seq<Warning>, i: nat)
    requires Sound(r) && i < |warnings| && !r.dependent(warnings[i])
    ensures Survives(r, warnings, i) && Slim(r, warnings[i]) == warnings[i]
  {
  }

  lemma RootsOfAppend(r: Rules, rows: seq<Warning>, w: Warning)
    ensures Roots(r, rows + [w], |rows| + 1) == Roots(r, rows, |rows|) + (if r.dependent(w) then [] else [w])
  {
    var longer := rows + [w];
    assert longer[|rows|] == w;
    RootsPrefix(r, rows, longer, |rows|);
  }

  lemma {:induction false} SurvivingRoots(r: Rules, warnings: seq<Warning>, n: nat)
    requires Sound(r) && n <= |warnings|
    ensures var out := Survivors(r, warnings, n); Roots(r, out, |out|) == Roots(r, warnings, n)
  {
    if n > 0 {
      var k := n - 1;
      var w := warnings[k];
      SurvivingRoots(r, warnings, k);
      SurvivorsStep(r, warnings, k);
      RootsOfAppend(r, Survivors(r, warnings, k), Slim(r, w));
      if !r.dependent(w) {
        RootSurvives(r, warnings, k);
      } else {
        assert r.dependent(Slim(r, w));
      }
    }
  }

  /** The filter keeps every root-cause row, unchanged and in order. */
  lemma RootCausesAreKept(warnings: seq<Warning>)
    ensures var r := RulesOf(BusinessCatalog());
            Roots(r, Filtered(r, warnings), |Filtered(r, warnings)|) == Roots(r, warnings, |warnings|)
  {
    CatalogRulesAreSound();
    FilterIsSurvivors(RulesOf(BusinessCatalog()), warnings);
    SurvivingRoots(RulesOf(BusinessCatalog()), warnings, |warnings|);
  }

  // ----- why a row is gone

  lemma {:induction false} SurvivorIsOut(r: Rules, warnings: seq<Warning>, n: nat, i: nat)
    requires i < n <= |warnings| && Survives(r, warnings, i)
    ensures Slim(r, warnings[i]) in Survivors(r, warnings, n)
  {
    var before, out := Survivors(r, warnings, n - 1), Survivors(r, warnings, n);
    if i < n - 1 {
      SurvivorIsOut(r, warnings, n - 1, i);
      assert before <= out;
    } else {
      assert out[|before|] == Slim(r, warnings[i]);
    }
  }

  /** The earliest uncovered row with a key survives. */
  lemma {:induction false} EarliestSurvives(r: Rules, warnings: seq<Warning>, n: nat, key: ProfileKey) returns (j: nat)
    requires n <= |warnings| && KeySeen(r, warnings, n, key)
    ensures j < n && Survives(r, warnings, j) && r.key(warnings[j]) == Some(key)
  {
    KeySeenStep(r, warnings, n - 1, key);
    if KeySeen(r, warnings, n - 1, key) {
      j := EarliestSurvives(r, warnings, n - 1, key);
    } else {
      j := n - 1;
    }
  }

  /** Output row `kept` answers for input row `gone`. */
  predicate AnswersFor(r: Rules, kept: Warning, gone: Warning) {
    || (!r.dependent(kept) && r.covers(kept, gone))
    || (r.key(kept).Some? && r.key(kept) == r.key(gone))
  }

  /**
   Every input row stays, or a kept root cause covers it in scope, or a kept row repeats its
   code and pack code.
   */
  lemma RemovedRowsAreAccountedFor(r: Rules, warnings: seq<Warning>, i: nat) returns (kept: Warning)
    requires Sound(r) && i < |warnings|
    ensures kept in Filtered(r, warnings)
    ensures if Survives(r, warnings, i) then kept == Slim(r, warnings[i]) else AnswersFor(r, kept, warnings[i])
  {
    FilterIsSurvivors(r, warnings);
    var j := i;
    if CoveredByOther(r, warnings, i) {
      j :| 0 <= j < |warnings| && j != i && r.covers(warnings[j], warnings[i]);
      RootSurvives(r, warnings, j);
    } else if !Survives(r, warnings, i) {
      j := EarliestSurvives(r, warnings, i, r.key(warnings[i]).value);
    }
    SurvivorIsOut(r, warnings, |warnings|, j);
    kept := Slim(r, warnings[j]);
  }

  // ----- filtering twice

  /** A kept profile gap that only its dropped context kept out of the root's scope. */
  predicate Exposed(r: Rules, warnings: seq<Warning>, i: nat, j: nat)
    requires i < |warnings| && j < |warnings|
  {
    Survives(r, warnings, i) && r.covers(warnings[j], Slim(r, warnings[i]))
  }

  predicate ComesFrom(r: Rules, warnings: seq<Warning>, n: nat, kept: Warning)
    requires n <= |warnings|
  {
    exists i | 0 <= i < n :: Survives(r, warnings, i) && kept == Slim(r, warnings[i])
  }

  lemma {:induction false} SurvivorsAreSlim(r: Rules, warnings: seq<Warning>, n: nat)
    requires n <= |warnings|
    ensures forall k | 0 <= k < |Survivors(r, warnings, n)| :: ComesFrom(r, warnings, n, Survivors(r, warnings, n)[k])
  {
    if n > 0 {
      SurvivorsAreSlim(r, warnings, n - 1);
      var before, out := Survivors(r, warnings, n - 1), Survivors(r, warnings, n);
      forall k | 0 <= k < |out| ensures ComesFrom(r, warnings, n, out[k]) {
        if k < |before| {
          assert out[k] == before[k] && ComesFrom(r, warnings, n - 1, before[k]);
        } else {
          assert Survives(r, warnings, n - 1) && out[k] == Slim(r, warnings[n - 1]);
        }
      }
    }
  }

  lemma KeptKeyIsSeen(r: Rules, warnings: seq<Warning>, n: nat, kept: Warning)
    requires Sound(r) && n <= |warnings| && ComesFrom(r, warnings, n, kept) && r.key(kept).Some?
    ensures KeySeen(r, warnings, n, r.key(kept).value)
  {
    var i :| 0 <= i < n && Survives(r, warnings, i) && kept == Slim(r, warnings[i]);
  }

  lemma {:induction false} SurvivorKeysDiffer(r: Rules, warnings: seq<Warning>, n: nat)
    requires Sound(r) && n <= |warnings|
    ensures DistinctKeys(r, Survivors(r, warnings, n))
  {
    if n > 0 {
      SurvivorKeysDiffer(r, warnings, n - 1);
      SurvivorsAreSlim(r, warnings, n - 1);
      if Survives(r, warnings, n - 1) {
        NewKeyDiffers(r, warnings, n - 1);
      } else {
        assert Survivors(r, warnings, n) == Survivors(r, warnings, n - 1);
      }
    }
  }

  lemma NewKeyDiffers(r: Rules, warnings: seq<Warning>, n: nat)
    requires Sound(r) && n < |warnings| && Survives(r, warnings, n) && DistinctKeys(r, Survivors(r, warnings, n))
    requires forall k | 0 <= k < |Survivors(r, warnings, n)| :: ComesFrom(r, warnings, n, Survivors(r, warnings, n)[k])
    ensures DistinctKeys(r, Survivors(r, warnings, n + 1))
  {
    var before, w := Survivors(r, warnings, n), warnings[n];
    forall k | 0 <= k < |before| && r.key(before[k]).Some? ensures r.key(before[k]) != r.key(w) {
      KeptKeyIsSeen(r, warnings, n, before[k]);
    }
    assert Survivors(r, warnings, n + 1) == before + [Slim(r, w)];
    assert r.key(Slim(r, w)) == r.key(w);
  }

  predicate DistinctKeys(r: Rules, rows: seq<Warning>) {
    forall i, j | 0 <= i < j < |rows| :: r.key(rows[i]).None? || r.key(rows[i]) != r.key(rows[j])
  }

  predicate AllSlim(r: Rules, rows: seq<Warning>) {
    forall k | 0 <= k < |rows| :: Slim(r, rows[k]) == rows[k]
  }

  predicate AllSurvive(r: Rules, rows: seq<Warning>, n: nat)
    requires n <= |rows|
  {
    forall k | 0 <= k < n :: Survives(r, rows, k)
  }

  lemma {:induction false} SurvivorCount(r: Rules, rows: seq<Warning>, n: nat)
    requires n <= |rows|
    ensures |Survivors(r, rows, n)| <= n
    ensures |Survivors(r, rows, n)| == n <==> AllSurvive(r, rows, n)
  {
    if n > 0 {
      var k := n - 1;
      SurvivorCount(r, rows, k);
      SurvivorsStep(r, rows, k);
    }
  }

  lemma {:induction false} AllSurviving(r: Rules, rows: seq<Warning>, n: nat)
    requires n <= |rows| && AllSlim(r, rows) && AllSurvive(r, rows, n)
    ensures Survivors(r, rows, n) == rows[..n]
  {
    if n > 0 {
      var k := n - 1;
      AllSurviving(r, rows, k);
      SurvivorsStep(r, rows, k);
    }
  }

  lemma FilteredRows(r: Rules, warnings: seq<Warning>)
    requires Sound(r)
    ensures AllSlim(r, Filtered(r, warnings)) && DistinctKeys(r, Filtered(r, warnings))
  {
    var out := Filtered(r, warnings);
    FilterIsSurvivors(r, warnings);
    SurvivorsAreSlim(r, warnings, |warnings|);
    SurvivorKeysDiffer(r, warnings, |warnings|);
    forall k | 0 <= k < |out| ensures Slim(r, out[k]) == out[k] {
      assert ComesFrom(r, warnings, |warnings|, out[k]);
      var i :| 0 <= i < |warnings| && Survives(r, warnings, i) && out[k] == Slim(r, warnings[i]);
    }
  }

  lemma SurvivesAgainIff(r: Rules, rows: seq<Warning>, k: nat)
    requires k < |rows| && DistinctKeys(r, rows)
    ensures Survives(r, rows, k) <==> !CoveredByOther(r, rows, k)
  {
  }

  /**
   Filtering again changes nothing exactly when no kept row, reduced to its pack code, has
   come into a root cause's scope. It can: a root without a product id covers a profile gap
   only after the gap's product id is dropped.
   */
  lemma FilterTwiceIff(r: Rules, warnings: seq<Warning>)
    requires Sound(r)
    ensures Filtered(r, Filtered(r, warnings)) == Filtered(r, warnings)
       <==> !exists i, j | 0 <= i < |warnings| && 0 <= j < |warnings| :: Exposed(r, warnings, i, j)
  {
    var out := Filtered(r, warnings);
    FilteredRows(r, warnings);
    FilterIsSurvivors(r, out);
    SurvivorCount(r, out, |out|);
    if AllSurvive(r, out, |out|) { AllSurviving(r, out, |out|); }
    assert out[..|out|] == out;
    if i, j :| 0 <= i < |warnings| && 0 <= j < |warnings| && Exposed(r, warnings, i, j) {
      var k := ExposedIsCovered(r, warnings, i, j);
      SurvivesAgainIff(r, out, k);
    } else {
      forall k | 0 <= k < |out| ensures Survives(r, out, k) {
        SurvivesAgainIff(r, out, k);
        if CoveredByOther(r, out, k) {
          CoveredIsExposed(r, warnings, k);
        }
      }
    }
  }

  /** Two rows on which the second pass drops what the first one kept. */
  lemma FilterTwiceCanDrop() returns (warnings: seq<Warning>)
    ensures var r := RulesOf(BusinessCatalog()); Filtered(r, Filtered(r, warnings)) != Filtered(r, warnings)
  {
    var r := RulesOf(BusinessCatalog());
    var root := Warning("missing_pack_code", "m", map["pack_code" := "P"]);
    var gap := Warning("missing_total_qty", "m", map["pack_code" := "P", "tender_product_id" := "1"]);
    warnings := [root, gap];
    CatalogRulesAreSound();
    ExampleRows(root, gap);
    assert !CoveredByOther(r, warnings, 1);
    assert Exposed(r, warnings, 1, 0);
    FilterTwiceIff(r, warnings);
  }

  lemma ExampleScopes(root: Context, gap: Context, slim: Context)
    requires root == slim == map["pack_code" := "P"] && gap == map["pack_code" := "P", "tender_product_id" := "1"]
    ensures HasScope(root, PACK_SCOPE) && HasScope(gap, PACK_SCOPE) && !SameScope(root, gap, PACK_SCOPE)
    ensures SameScope(root, slim, PACK_SCOPE) && ScopeValue(gap, "pack_code") == "P"
  {
    StripTrims("P");
    StripTrims("1");
    assert "tender_product_id" != "pack_code" by { assert "tender_product_id"[0] == 't'; }
    assert PACK_SCOPE[0] == "pack_code" && PACK_SCOPE[1] == "tender_product_id";
    assert ScopeValue(root, PACK_SCOPE[0]) == "P" && ScopeValue(gap, PACK_SCOPE[0]) == "P";
    assert ScopeValue(root, PACK_SCOPE[1]) == "" && ScopeValue(gap, PACK_SCOPE[1]) == "1";
  }

  lemma ExampleKeys(root: Warning, gap: Warning)
    requires root.code == "missing_pack_code" && gap.code == "missing_total_qty" && ScopeValue(gap.context, "pack_code") == "P"
    ensures WarningCode(root) == "missing_pack_code" && WarningCode(gap) in PROFILE_CODES
    ensures KeyOf(BusinessCatalog(), root).None? && KeyOf(BusinessCatalog(), gap).Some?
  {
    CodesDiffer();
    StripTrims(root.code);
    StripTrims(gap.code);
  }

  lemma ExampleRows(root: Warning, gap: Warning)
    requires root == Warning("missing_pack_code", "m", map["pack_code" := "P"])
    requires gap == Warning("missing_total_qty", "m", map["pack_code" := "P", "tender_product_id" := "1"])
    ensures var r := RulesOf(BusinessCatalog());
            !r.covers(root, gap) && r.covers(root, Slim(r, gap)) && r.key(root).None? && r.key(gap).Some?
  {
    var slim := gap.(context := map["pack_code" := "P"]);
    ExampleScopes(root.context, gap.context, slim.context);
    ExampleKeys(root, gap);
    assert Slim(RulesOf(BusinessCatalog()), gap) == slim;
    PackCodeCoversIff(root, gap);
    PackCodeCoversIff(root, slim);
  }

  lemma ExposedIsCovered(r: Rules, warnings: seq<Warning>, i: nat, j: nat) returns (k: nat)
    requires Sound(r) && i < |warnings| && j < |warnings| && Exposed(r, warnings, i, j)
    ensures k < |Filtered(r, warnings)| && CoveredByOther(r, Filtered(r, warnings), k)
  {
    var out := Filtered(r, warnings);
    FilterIsSurvivors(r, warnings);
    SurvivorIsOut(r, warnings, |warnings|, i);
    k :| 0 <= k < |out| && out[k] == Slim(r, warnings[i]);
    RootSurvives(r, warnings, j);
    SurvivorIsOut(r, warnings, |warnings|, j);
    var m :| 0 <= m < |out| && out[m] == warnings[j];
    assert r.covers(out[m], out[k]);
  }

  lemma CoveredIsExposed(r: Rules, warnings: seq<Warning>, k: nat)
    requires Sound(r) && k < |Filtered(r, warnings)| && CoveredByOther(r, Filtered(r, warnings), k)
    ensures exists i, j | 0 <= i < |warnings| && 0 <= j < |warnings| :: Exposed(r, warnings, i, j)
  {
    var out := Filtered(r, warnings);
    FilterIsSurvivors(r, warnings);
    SurvivorsAreSlim(r, warnings, |warnings|);
    var m :| 0 <= m < |out| && m != k && r.covers(out[m], out[k]);
    assert ComesFrom(r, warnings, |warnings|, out[k]) && ComesFrom(r, warnings, |warnings|, out[m]);
    var i :| 0 <= i < |warnings| && Survives(r, warnings, i) && out[k] == Slim(r, warnings[i]);
    var j :| 0 <= j < |warnings| && Survives(r, warnings, j) && out[m] == Slim(r, warnings[j]);
    RootSurvives(r, warnings, j);
    assert Exposed(r, warnings, i, j);
  }

  // ----- appended lists

  predicate Repeated(a: Warning, b: Warning) {
    WarningCode(a) == WarningCode(b) && Strip(a.message) == Strip(b.message) && a.context == b.context
  }

  /** No dependent after a root that covers it. */
  predicate NoCoveredAfterRoot(r: Rules, rows: seq<Warning>) {
    forall i, j | 0 <= i < j < |rows| :: !r.covers(rows[i], rows[j])
  }

  predicate NoRepeats(rows: seq<Warning>) {
    forall i, j {:trigger Repeated(rows[i], rows[j])} | 0 <= i < j < |rows| :: !Repeated(rows[i], rows[j])
  }

  predicate NoRepeatedKey(r: Rules, rows: seq<Warning>) {
    forall i, j | 0 <= i < j < |rows| :: r.key(rows[j]).Some? ==> r.key(rows[i]) != r.key(rows[j])
  }

  function AppendAll(r: Rules, rows: seq<Warning>, added: seq<Warning>, n: nat): seq<Warning>
    requires n <= |added|
  {
    if n == 0 then rows else Appended(r, AppendAll(r, rows, added, n - 1), added[n - 1])
  }

  lemma AppendKeepsOrder(r: Rules, rows: seq<Warning>, row: Warning)
    requires NoCoveredAfterRoot(r, rows)
    ensures NoCoveredAfterRoot(r, Appended(r, rows, row))
  {
  }

  /** A row's profile key is looked up when it is new as it is when it is stored. */
  predicate KeyLasting(r: Rules, row: Warning) {
    Trimmed(row.code) || r.key(row).None?
  }

  lemma AppendKeepsKeys(r: Rules, rows: seq<Warning>, row: Warning)
    requires Sound(r) && NoRepeatedKey(r, rows) && KeyLasting(r, row)
    ensures NoRepeatedKey(r, Appended(r, rows, row))
  {
    assert r.newKey(row) == if Trimmed(row.code) then r.key(row) else None;
  }

  /** Once stored, the row stops its own repeats: it is compared as stored, or its profile key is. */
  predicate Lasting(r: Rules, row: Warning) {
    Trimmed(row.code) && (Trimmed(row.message) || r.key(row).Some?)
  }

  /** A new row's key is that of the stored row, given a trimmed code, and a repeated row has the same key. */
  ghost predicate KeysFit(r: Rules) {
    && (forall w :: r.newKey(w) == if Trimmed(w.code) then r.key(w) else None)
    && (forall a, b {:trigger Repeated(a, b)} | Repeated(a, b) :: r.key(a) == r.key(b))
  }

  lemma CatalogKeysFit()
    ensures KeysFit(RulesOf(BusinessCatalog()))
  {
    CatalogRulesAreSound();
  }

  lemma RepeatIsRefused(r: Rules, rows: seq<Warning>, row: Warning, k: nat)
    requires KeysFit(r) && Lasting(r, row) && k < |rows| && Repeated(rows[k], row)
    ensures Appended(r, rows, row) == rows
  {
    StripTrims(row.code);
    StripTrims(row.message);
    if Trimmed(row.message) {
      assert SameRow(rows[k], row);
    } else {
      assert Repeated(rows[k], row);
      assert r.key(rows[k]) == r.key(row) == r.newKey(row);
    }
  }

  lemma AppendKeepsRows(r: Rules, rows: seq<Warning>, row: Warning)
    requires KeysFit(r) && NoRepeats(rows) && Lasting(r, row)
    ensures NoRepeats(Appended(r, rows, row))
  {
    if k :| 0 <= k < |rows| && Repeated(rows[k], row) {
      RepeatIsRefused(r, rows, row, k);
    }
  }

  /** What each append keeps, a list built by appends alone has. */
  lemma {:induction false} AppendInduction(r: Rules, added: seq<Warning>, n: nat, keeps: seq<Warning> -> bool)
    requires n <= |added| && keeps([])
    requires forall rows, k | 0 <= k < n && keeps(rows) :: keeps(Appended(r, rows, added[k]))
    ensures keeps(AppendAll(r, [], added, n))
  {
    if n > 0 { AppendInduction(r, added, n - 1, keeps); }
  }

  /** A list built by appends alone never has a dependent after a root that covers it. */
  lemma {:induction false} AppendedOrder(r: Rules, added: seq<Warning>, n: nat)
    requires n <= |added|
    ensures NoCoveredAfterRoot(r, AppendAll(r, [], added, n))
  {
    var keeps := (rows: seq<Warning>) => NoCoveredAfterRoot(r, rows);
    forall rows, k | 0 <= k < n && keeps(rows) ensures keeps(Appended(r, rows, added[k])) {
      AppendKeepsOrder(r, rows, added[k]);
    }
    AppendInduction(r, added, n, keeps);
  }

  /** When every added row is lasting by its key, a list built by appends alone repeats no profile key. */
  lemma {:induction false} AppendedKeys(r: Rules, added: seq<Warning>, n: nat)
    requires Sound(r) && n <= |added| && forall k | 0 <= k < n :: KeyLasting(r, added[k])
    ensures NoRepeatedKey(r, AppendAll(r, [], added, n))
  {
    var keeps := (rows: seq<Warning>) => NoRepeatedKey(r, rows);
    forall rows, k | 0 <= k < n && keeps(rows) ensures keeps(Appended(r, rows, added[k])) {
      AppendKeepsKeys(r, rows, added[k]);
    }
    AppendInduction(r, added, n, keeps);
  }

  /** Exactly these rows can be added to every list without repeated keys. */
  lemma KeyLastingIff(r: Rules, row: Warning)
    requires Sound(r)
    ensures KeyLasting(r, row) <==> forall rows | NoRepeatedKey(r, rows) :: NoRepeatedKey(r, Appended(r, rows, row))
  {
    if KeyLasting(r, row) {
      forall rows | NoRepeatedKey(r, rows) ensures NoRepeatedKey(r, Appended(r, rows, row)) {
        AppendKeepsKeys(r, rows, row);
      }
    } else {
      var twice := RepeatsItself(r, row);
      assert r.key(twice[0]) == r.key(twice[1]);
      assert NoRepeatedKey(r, [row]);
    }
  }

  /** A row that is not lasting is appended a second time behind itself. */
  lemma RepeatsItself(r: Rules, row: Warning) returns (twice: seq<Warning>)
    requires Sound(r) && !Lasting(r, row)
    ensures twice == [row, row] && Appended(r, [row], row) == twice
  {
    assert !CoveredIn(r, [], row) && !Repeats([], row) && !RepeatsKey(r, [], row);
    assert Appended(r, [], row) == [] + [row] == [row];
    AppendTwiceIff(r, [], row);
    twice := [row] + [row];
  }

  /** When every added row is lasting, a list built by appends alone repeats no row. */
  lemma {:induction false} AppendedRows(r: Rules, added: seq<Warning>, n: nat)
    requires KeysFit(r) && n <= |added| && forall k | 0 <= k < n :: Lasting(r, added[k])
    ensures NoRepeats(AppendAll(r, [], added, n))
  {
    var keeps := (rows: seq<Warning>) => NoRepeats(rows);
    forall rows, k | 0 <= k < n && keeps(rows) ensures keeps(Appended(r, rows, added[k])) {
      AppendKeepsRows(r, rows, added[k]);
    }
    AppendInduction(r, added, n, keeps);
  }

  /** Exactly the lasting rows can be added to every list without repeats: any other repeats itself. */
  lemma LastingIff(r: Rules, row: Warning)
    requires Sound(r) && KeysFit(r)
    ensures Lasting(r, row) <==> forall rows | NoRepeats(rows) :: NoRepeats(Appended(r, rows, row))
  {
    if Lasting(r, row) {
      forall rows | NoRepeats(rows) ensures NoRepeats(Appended(r, rows, row)) {
        AppendKeepsRows(r, rows, row);
      }
    } else {
      var twice := RepeatsItself(r, row);
      assert Repeated(twice[0], twice[1]);
      assert NoRepeats([row]);
    }
  }

  /**
   Appending the same warning twice adds it once, exactly when its code has no outer white
   space and its message has none either or a profile key decides: stored texts are compared
   stripped, the new ones as they are.
   */
  lemma AppendTwiceIff(r: Rules, rows: seq<Warning>, row: Warning)
    requires Sound(r) && Appended(r, rows, row) != rows
    ensures var once := Appended(r, rows, row);
            Appended(r, once, row) == once
            <==> Lasting(r, row)
  {
    var once := rows + [row];
    StripTrims(row.code);
    StripTrims(row.message);
    assert once[|rows|] == row;
    assert !CoveredIn(r, once, row);
    assert Repeats(once, row) <==> Trimmed(row.code) && Trimmed(row.message);
    assert RepeatsKey(r, once, row) <==> Trimmed(row.code) && r.key(row).Some?;
  }

  /** Without earlier covers and repeated keys, a row survives exactly when no later row covers it. */
  lemma FilterOfAppended(r: Rules, rows: seq<Warning>, i: nat)
    requires NoCoveredAfterRoot(r, rows) && NoRepeatedKey(r, rows) && i < |rows|
    ensures Survives(r, rows, i) <==> !CoveredLater(r, rows, i)
  {
  }

  predicate CoveredLater(r: Rules, rows: seq<Warning>, i: nat)
    requires i < |rows|
  {
    exists j | i < j < |rows| :: r.covers(rows[j], rows[i])
  }

  /** The rows among the first `n` that no later row covers, each reduced to its pack code when it has a profile key. */
  function NotCoveredLater(r: Rules, rows: seq<Warning>, n: nat): seq<Warning>
    requires n <= |rows|
  {
    if n == 0 then []
    else NotCoveredLater(r, rows, n - 1) + (if CoveredLater(r, rows, n - 1) then [] else [Slim(r, rows[n - 1])])
  }

  lemma {:induction false} SurvivorsOfAppended(r: Rules, rows: seq<Warning>, n: nat)
    requires NoCoveredAfterRoot(r, rows) && NoRepeatedKey(r, rows) && n <= |rows|
    ensures Survivors(r, rows, n) == NotCoveredLater(r, rows, n)
  {
    if n > 0 {
      SurvivorsOfAppended(r, rows, n - 1);
      SurvivorsStep(r, rows, n - 1);
      FilterOfAppended(r, rows, n - 1);
    }
  }

  // ----- in the business catalog

  function Business(): Rules {
    RulesOf(BusinessCatalog())
  }

  /** However warnings were appended, the filter drops exactly the gaps whose root cause came later. */
  lemma BusinessFilterOfAppended(added: seq<Warning>, n: nat)
    requires n <= |added| && forall k | 0 <= k < n :: KeyLasting(Business(), added[k])
    ensures var rows := AppendAll(Business(), [], added, n);
            Filtered(Business(), rows) == NotCoveredLater(Business(), rows, |rows|)
  {
    var rows := AppendAll(Business(), [], added, n);
    CatalogRulesAreSound();
    AppendedOrder(Business(), added, n);
    AppendedKeys(Business(), added, n);
    FilterIsSurvivors(Business(), rows);
    SurvivorsOfAppended(Business(), rows, |rows|);
  }

  /** A list of business warnings built by appends alone: order, keys and rows. */
  lemma BusinessAppends(added: seq<Warning>, n: nat)
    requires n <= |added|
    ensures var rows := AppendAll(Business(), [], added, n);
            && NoCoveredAfterRoot(Business(), rows)
            && ((forall k | 0 <= k < n :: KeyLasting(Business(), added[k])) ==> NoRepeatedKey(Business(), rows))
            && ((forall k | 0 <= k < n :: Lasting(Business(), added[k])) ==> NoRepeats(rows))
  {
    CatalogRulesAreSound();
    CatalogKeysFit();
    AppendedOrder(Business(), added, n);
    if forall k | 0 <= k < n :: KeyLasting(Business(), added[k]) { AppendedKeys(Business(), added, n); }
    if forall k | 0 <= k < n :: Lasting(Business(), added[k]) { AppendedRows(Business(), added, n); }
  }

  /** Which business warnings never repeat a row, and which never repeat a profile key, on any list. */
  lemma BusinessLastingIff(row: Warning)
    ensures Lasting(Business(), row) <==> forall rows | NoRepeats(rows) :: NoRepeats(Appended(Business(), rows, row))
    ensures KeyLasting(Business(), row) <==>
              forall rows | NoRepeatedKey(Business(), rows) :: NoRepeatedKey(Business(), Appended(Business(), rows, row))
  {
    CatalogRulesAreSound();
    CatalogKeysFit();
    LastingIff(Business(), row);
    KeyLastingIff(Business(), row);
  }

  /** Each business warning stays, or a kept root cause covers it, or a kept row repeats its key. */
  lemma BusinessRemovals(warnings: seq<Warning>, i: nat) returns (kept: Warning)
    requires i < |warnings|
    ensures kept in Filtered(Business(), warnings)
    ensures if Survives(Business(), warnings, i) then kept == Slim(Business(), warnings[i]) else AnswersFor(Business(), kept, warnings[i])
  {
    CatalogRulesAreSound();
    kept := RemovedRowsAreAccountedFor(Business(), warnings, i);
  }
}
