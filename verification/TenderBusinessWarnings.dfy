/** Collecting and reducing business warnings (app/domain/tender_business_warnings.py). */
module TenderBusinessWarnings {
  import opened Wrappers
  import opened Text
  import opened BusinessErrorDependencies

  datatype ProfileKey = ProfileKey(code: string, packCode: string)

  /** `_catalog_profile_dedupe_key` */
  function CatalogProfileDedupeKey(t: Catalog, code: string, context: Context): Option<ProfileKey> {
    var packCode := ScopeValue(context, "pack_code");
    if code in t.profileCodes && packCode != "" then Some(ProfileKey(code, packCode)) else None
  }

  function KeyOf(t: Catalog, w: Warning): Option<ProfileKey> {
    CatalogProfileDedupeKey(t, WarningCode(w), w.context)
  }

  // ----- reading

  /** Code and message stripped. */
  function Cleaned(w: Warning): Warning {
    Warning(Strip(w.code), Strip(w.message), w.context)
  }

  predicate IsBlank(w: Warning) {
    Strip(w.code) == "" && Strip(w.message) == ""
  }

  function CleanedRows(warnings: seq<Warning>, n: nat): seq<Warning>
    requires n <= |warnings|
  {
    if n == 0 then []
    else CleanedRows(warnings, n - 1) + (if IsBlank(warnings[n - 1]) then [] else [Cleaned(warnings[n - 1])])
  }

  // ----- appending

  predicate SameRow(item: Warning, row: Warning) {
    Strip(item.code) == row.code && Strip(item.message) == row.message && item.context == row.context
  }

  predicate Repeats(warnings: seq<Warning>, row: Warning) {
    exists k | 0 <= k < |warnings| :: SameRow(warnings[k], row)
  }

  /** What appending and filtering ask about rows: who covers whom, profile keys, and whose code is a consequence. */
  datatype Rules = Rules(
    covers: (Warning, Warning) -> bool,
    key: Warning -> Option<ProfileKey>,
    newKey: Warning -> Option<ProfileKey>,
    dependent: Warning -> bool)

  /** A new row's code is looked up as given, a stored one's stripped. */
  function RulesOf(t: Catalog): Rules {
    Rules(
      (a: Warning, d: Warning) => Covers(t, a, d),
      (w: Warning) => KeyOf(t, w),
      (w: Warning) => CatalogProfileDedupeKey(t, w.code, w.context),
      (w: Warning) => IsDependent(t, w))
  }

  predicate CoveredIn(r: Rules, warnings: seq<Warning>, d: Warning) {
    exists k | 0 <= k < |warnings| :: r.covers(warnings[k], d)
  }

  predicate RepeatsKey(r: Rules, warnings: seq<Warning>, row: Warning) {
    r.newKey(row).Some? && exists k | 0 <= k < |warnings| :: r.key(warnings[k]) == r.newKey(row)
  }

  function Appended(r: Rules, warnings: seq<Warning>, row: Warning): seq<Warning> {
    if CoveredIn(r, warnings, row) || Repeats(warnings, row) || RepeatsKey(r, warnings, row) then warnings else warnings + [row]
  }

  /** The part of `state.data` under "tender_business_warnings"; None when absent or not a list. */
  class TenderState {
    var warnings: Option<seq<Warning>>

    method GetTenderBusinessWarnings() returns (out: seq<Warning>)
      ensures out == CleanedRows(warnings.GetOr([]), |warnings.GetOr([])|)
    {
      out := [];
      if warnings.None? { return; }
      var raw := warnings.value;
      for k := 0 to |raw|
        invariant out == CleanedRows(raw, k)
      {
        if IsBlank(raw[k]) { continue; }
        out := out + [Cleaned(raw[k])];
      }
    }

    method AppendTenderBusinessWarning(t: Catalog, code: string, message: string, context: Context)
      modifies this
      ensures warnings == Some(Appended(RulesOf(t), old(warnings).GetOr([]), Warning(code, message, context)))
    {
      var row := Warning(code, message, context);
      if warnings.None? { warnings := Some([]); }
      var rows := warnings.value;
      var cleaned := GetTenderBusinessWarnings();
      CleanedCoverInCatalog(t, rows, row);
      var suppressed := IsSuppressedByWarnings(t, cleaned, row);
      assert suppressed <==> CoveredIn(RulesOf(t), rows, row);
      if suppressed { return; }
      if Repeats(rows, row) || RepeatsKey(RulesOf(t), rows, row) { return; }
      warnings := Some(rows + [row]);
    }
  }

  lemma CleanedCoversAlike(t: Catalog, a: Warning, d: Warning)
    ensures Covers(t, Cleaned(a), d) == Covers(t, a, d)
    ensures IsBlank(a) ==> !Covers(t, a, d)
  {
    StripTrims(a.code);
    StripTrims(Strip(a.code));
  }

  lemma CleanedCoverInCatalog(t: Catalog, rows: seq<Warning>, row: Warning)
    ensures CoveredByAny(t, CleanedRows(rows, |rows|), row) <==> CoveredIn(RulesOf(t), rows, row)
  {
    var r := RulesOf(t);
    assert IgnoresSpace(r, row) by {
      forall a ensures r.covers(Cleaned(a), row) == r.covers(a, row) && (IsBlank(a) ==> !r.covers(a, row)) {
        CleanedCoversAlike(t, a, row);
      }
    }
    CleanedCoverAlike(r, rows, |rows|, row);
  }

  predicate CoveredBefore(r: Rules, warnings: seq<Warning>, n: nat, d: Warning)
    requires n <= |warnings|
  {
    exists k | 0 <= k < n :: r.covers(warnings[k], d)
  }

  /** Row `d` is covered alike before and after rows are cleaned. */
  ghost predicate IgnoresSpace(r: Rules, d: Warning) {
    forall a :: r.covers(Cleaned(a), d) == r.covers(a, d) && (IsBlank(a) ==> !r.covers(a, d))
  }

  lemma CleanedStep(warnings: seq<Warning>, n: nat)
    requires n < |warnings|
    ensures CleanedRows(warnings, n + 1)
         == if IsBlank(warnings[n]) then CleanedRows(warnings, n) else CleanedRows(warnings, n) + [Cleaned(warnings[n])]
  {
  }

  lemma CoveredStep(r: Rules, warnings: seq<Warning>, n: nat, d: Warning)
    requires n < |warnings|
    ensures CoveredBefore(r, warnings, n + 1, d) <==> CoveredBefore(r, warnings, n, d) || r.covers(warnings[n], d)
  {
  }

  lemma {:induction false} CleanedCoverAlike(r: Rules, warnings: seq<Warning>, n: nat, d: Warning)
    requires n <= |warnings| && IgnoresSpace(r, d)
    ensures CoveredIn(r, CleanedRows(warnings, n), d) <==> CoveredBefore(r, warnings, n, d)
  {
    if n > 0 {
      var k := n - 1;
      CleanedCoverAlike(r, warnings, k, d);
      CoveredStep(r, warnings, k, d);
      CleanedStep(warnings, k);
      CoveredAfterAppend(r, CleanedRows(warnings, k), Cleaned(warnings[k]), d);
    }
  }

  lemma CoveredAfterAppend(r: Rules, warnings: seq<Warning>, w: Warning, d: Warning)
    ensures CoveredIn(r, warnings + [w], d) <==> CoveredIn(r, warnings, d) || r.covers(w, d)
  {
    var longer := warnings + [w];
    assert longer[|warnings|] == w;
    assert forall k | 0 <= k < |warnings| :: longer[k] == warnings[k];
  }

  // ----- filtering

  predicate CoveredByOther(r: Rules, warnings: seq<Warning>, i: nat)
    requires i < |warnings|
  {
    exists k | 0 <= k < |warnings| :: k != i && r.covers(warnings[k], warnings[i])
  }

  /** The rows among the first `n` that no other row covers. */
  function Uncovered(r: Rules, warnings: seq<Warning>, n: nat): seq<Warning>
    requires n <= |warnings|
  {
    if n == 0 then []
    else Uncovered(r, warnings, n - 1) + (if CoveredByOther(r, warnings, n - 1) then [] else [warnings[n - 1]])
  }

  lemma UncoveredStep(r: Rules, warnings: seq<Warning>, n: nat)
    requires n < |warnings|
    ensures Uncovered(r, warnings, n + 1)
         == if CoveredByOther(r, warnings, n) then Uncovered(r, warnings, n) else Uncovered(r, warnings, n) + [warnings[n]]
  {
  }

  /** A profile row keeps only its pack code. */
  function Slim(r: Rules, w: Warning): Warning {
    if r.key(w).Some? && "pack_code" in w.context then w.(context := map["pack_code" := w.context["pack_code"]]) else w
  }

  datatype Collapsed = Collapsed(seen: set<ProfileKey>, out: seq<Warning>)

  function CollapseRow(r: Rules, before: Collapsed, w: Warning): Collapsed {
    match r.key(w)
    case None => before.(out := before.out + [w])
    case Some(key) => if key in before.seen then before else Collapsed(before.seen + {key}, before.out + [Slim(r, w)])
  }

  /** `_collapse_duplicate_catalog_profile_warnings` after `n` rows. */
  function Collapse(r: Rules, warnings: seq<Warning>, n: nat): Collapsed
    requires n <= |warnings|
  {
    if n == 0 then Collapsed({}, []) else CollapseRow(r, Collapse(r, warnings, n - 1), warnings[n - 1])
  }

  function Filtered(r: Rules, warnings: seq<Warning>): seq<Warning> {
    var kept := Uncovered(r, warnings, |warnings|);
    Collapse(r, kept, |kept|).out
  }

  method CollapseDuplicateCatalogProfileWarnings(r: Rules, warnings: seq<Warning>) returns (out: seq<Warning>)
    ensures out == Collapse(r, warnings, |warnings|).out
  {
    var seen: set<ProfileKey> := {};
    out := [];
    for k := 0 to |warnings|
      invariant Collapsed(seen, out) == Collapse(r, warnings, k)
    {
      var w := warnings[k];
      var key := r.key(w);
      if key.Some? {
        if key.value in seen { continue; }
        seen := seen + {key.value};
        w := Slim(r, w);
      }
      out := out + [w];
    }
  }

  predicate AreSuppressed(r: Rules, warnings: seq<Warning>, ids: set<int>, n: nat)
    requires n <= |warnings|
  {
    forall k | 0 <= k < n :: k in ids <==> CoveredByOther(r, warnings, k)
  }

  method FilterPrimaryBusinessWarnings(r: Rules, warnings: seq<Warning>) returns (out: seq<Warning>)
    ensures out == Filtered(r, warnings)
  {
    var suppressIds := SuppressIds(r, warnings);
    var kept: seq<Warning> := [];
    for i := 0 to |warnings|
      invariant kept == Uncovered(r, warnings, i)
    {
      UncoveredStep(r, warnings, i);
      if i !in suppressIds { kept := kept + [warnings[i]]; }
    }
    out := CollapseDuplicateCatalogProfileWarnings(r, kept);
  }

  /** The first loop of the filter. */
  method SuppressIds(r: Rules, warnings: seq<Warning>) returns (ids: set<int>)
    ensures AreSuppressed(r, warnings, ids, |warnings|)
  {
    ids := {};
    for i := 0 to |warnings|
      invariant AreSuppressed(r, warnings, ids, i)
      invariant forall k | k in ids :: k < i
    {
      ghost var before := ids;
      for j := 0 to |warnings|
        invariant ids == before && forall k | 0 <= k < j :: k != i ==> !r.covers(warnings[k], warnings[i])
      {
        if i != j && r.covers(warnings[j], warnings[i]) {
          ids := ids + {i};
          break;
        }
      }
    }
  }
}
